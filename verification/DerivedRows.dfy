/** The rows of the derived estate and their merge with the authored
    override (internal/conformance/derive.go, Derive). */
module DerivedRows {
  import opened Base
  import opened Staleness
  import opened DerivedEstate
  import opened Topologies

  datatype Derivation = Derivation(topology: Topology, reading: Estate, authored: seq<EstateRow>, now: int)

  function EnvironmentSet(topo: Topology, svc: Service): set<string> {
    set p: Path | p in svc.paths && p != [] && p[0] in topo.tiers && topo.tiers[p[0]].environment != "" ::
      topo.tiers[p[0]].environment
  }

  function EnvironmentsOf(topo: Topology, svc: Service): seq<string> {
    Ascending(EnvironmentSet(topo, svc))
  }

  method EnvironmentsOfLoop(topo: Topology, svc: Service) returns (environments: seq<string>)
    ensures environments == EnvironmentsOf(topo, svc)
  {
    var seen: set<string> := {};
    for i := 0 to |svc.paths|
      invariant seen == EnvironmentSet(topo, svc.(paths := svc.paths[..i]))
    {
      var p := svc.paths[i];
      assert svc.paths[..i + 1] == svc.paths[..i] + [p];
      if p == [] { continue; }
      if p[0] in topo.tiers && topo.tiers[p[0]].environment != "" {
        seen := seen + {topo.tiers[p[0]].environment};
      }
    }
    assert svc.paths[..|svc.paths|] == svc.paths;
    environments := Ascending(seen);
  }

  /** The last authored row filed under `row`, as a map filled in order
      keeps it. */
  function Override(authored: seq<EstateRow>, row: Row): Option<EstateRow> {
    if authored == [] then None
    else if authored[|authored| - 1].row == row then Some(authored[|authored| - 1])
    else Override(authored[..|authored| - 1], row)
  }

  function OnboardedOn(authored: seq<EstateRow>, service: string): Option<int> {
    if authored == [] then None
    else
      var last := authored[|authored| - 1];
      if last.row.service == service && last.onboarded.Some? then last.onboarded
      else OnboardedOn(authored[..|authored| - 1], service)
  }

  function RowFor(d: Derivation, svc: Service, env: string): EstateRow {
    match Override(d.authored, Row(svc.id, env))
    case Some(a) => a.(overridden := true)
    case None =>
      EstateRow(Row(svc.id, env), EffectiveFor(d.topology, svc, env, ForEvaluation(d.reading, d.now)),
                svc.class_, OnboardedOn(d.authored, svc.id), "", false)
  }

  function RowsFor(d: Derivation, svc: Service, environments: seq<string>): seq<EstateRow> {
    if environments == [] then []
    else
      var n := |environments| - 1;
      RowsFor(d, svc, environments[..n]) + [RowFor(d, svc, environments[n])]
  }

  function RowsOf(d: Derivation, ids: seq<string>): seq<EstateRow> {
    if ids == [] then []
    else
      var n := |ids| - 1;
      RowsOf(d, ids[..n]) + ServiceRowsOf(d, ids[n])
  }

  function ServiceRowsOf(d: Derivation, id: string): seq<EstateRow> {
    if id !in d.topology.services then []
    else
      var svc := d.topology.services[id];
      RowsFor(d, svc, EnvironmentsOf(d.topology, svc))
  }

  /** Rows the topology gives the estate, service by service. */
  function TopologyRows(d: Derivation): seq<EstateRow> {
    RowsOf(d, Ascending(d.topology.services.Keys))
  }

  function Rows(rows: seq<EstateRow>): set<Row> {
    set r | r in rows :: r.row
  }

  /** Authored rows the topology derives nothing for. */
  function Extras(authored: seq<EstateRow>, derived: set<Row>): seq<EstateRow> {
    if authored == [] then []
    else
      var n := |authored| - 1;
      Extras(authored[..n], derived) + if authored[n].row in derived then [] else [authored[n].(overridden := true)]
  }

  predicate RowLess(a: EstateRow, b: EstateRow) {
    if a.row.service != b.row.service then Less(a.row.service, b.row.service)
    else Less(a.row.environment, b.row.environment)
  }

  function Derive(d: Derivation): seq<EstateRow> {
    Sort(RowLess, TopologyRows(d) + Extras(d.authored, Rows(TopologyRows(d))))
  }

  ghost predicate Indexed(rows: seq<EstateRow>, authored: map<Row, EstateRow>, onboarded: map<string, int>) {
    && (forall row :: Override(rows, row) == if row in authored then Some(authored[row]) else None)
    && (forall s :: OnboardedOn(rows, s) == if s in onboarded then Some(onboarded[s]) else None)
  }

  /** The two lookups built from the authored rows: the last row filed
      under each key, and the last stated onboarding date of each Service. */
  method IndexAuthored(rows: seq<EstateRow>) returns (authored: map<Row, EstateRow>, onboarded: map<string, int>)
    ensures Indexed(rows, authored, onboarded)
  {
    authored, onboarded := map[], map[];
    for i := 0 to |rows|
      invariant forall row :: Override(rows[..i], row) == if row in authored then Some(authored[row]) else None
      invariant forall s :: OnboardedOn(rows[..i], s) == if s in onboarded then Some(onboarded[s]) else None
    {
      assert rows[..i + 1][..i] == rows[..i];
      authored := authored[rows[i].row := rows[i]];
      if rows[i].onboarded.Some? { onboarded := onboarded[rows[i].row.service := rows[i].onboarded.value]; }
    }
    assert rows[..|rows|] == rows;
  }

  lemma RowsAppend(rows: seq<EstateRow>, r: EstateRow)
    ensures Rows(rows + [r]) == Rows(rows) + {r.row}
  {
  }

  method NextRow(d: Derivation, svc: Service, env: string, reading: Estate, authored: map<Row, EstateRow>,
                 onboarded: map<string, int>)
    returns (next: EstateRow)
    requires reading == ForEvaluation(d.reading, d.now)
    requires Indexed(d.authored, authored, onboarded)
    ensures next == RowFor(d, svc, env)
    ensures next.row == Row(svc.id, env)
  {
    hide EffectiveFor, Override, OnboardedOn, ForEvaluation;
    var row := Row(svc.id, env);
    if row in authored {
      OverrideIsForRow(d.authored, row);
      next := authored[row].(overridden := true);
    } else {
      var effective := EffectiveForLoop(d.topology, svc, env, reading);
      next := EstateRow(row, effective, svc.class_,
                        if svc.id in onboarded then Some(onboarded[svc.id]) else None, "", false);
    }
  }

  /** One Service's rows, appended to the rows so far. */
  method ServiceRows(d: Derivation, svc: Service, reading: Estate, authored: map<Row, EstateRow>,
                     onboarded: map<string, int>, before: seq<EstateRow>, claimed: set<Row>)
    returns (rows: seq<EstateRow>, derived: set<Row>)
    requires reading == ForEvaluation(d.reading, d.now)
    requires Indexed(d.authored, authored, onboarded)
    requires claimed == Rows(before)
    ensures rows == before + RowsFor(d, svc, EnvironmentsOf(d.topology, svc))
    ensures derived == Rows(rows)
  {
    hide RowFor, Override, OnboardedOn, ForEvaluation, Rows, EnvironmentsOf, Indexed;
    rows, derived := before, claimed;
    var environments := EnvironmentsOfLoop(d.topology, svc);
    for j := 0 to |environments|
      invariant rows == before + RowsFor(d, svc, environments[..j])
      invariant derived == Rows(rows)
    {
      assert environments[..j + 1][..j] == environments[..j];
      var next := NextRow(d, svc, environments[j], reading, authored, onboarded);
      RowsAppend(rows, next);
      derived := derived + {Row(svc.id, environments[j])};
      rows := rows + [next];
    }
    assert environments[..|environments|] == environments;
  }

  lemma {:induction false} OverrideIsForRow(authored: seq<EstateRow>, row: Row)
    requires Override(authored, row).Some?
    ensures Override(authored, row).value.row == row
    ensures Override(authored, row).value in authored
  {
    var n := |authored| - 1;
    if authored[n].row != row { OverrideIsForRow(authored[..n], row); }
  }

  method ExtrasLoop(authored: seq<EstateRow>, derived: set<Row>, before: seq<EstateRow>) returns (rows: seq<EstateRow>)
    ensures rows == before + Extras(authored, derived)
  {
    rows := before;
    for i := 0 to |authored|
      invariant rows == before + Extras(authored[..i], derived)
    {
      assert authored[..i + 1][..i] == authored[..i];
      if authored[i].row !in derived {
        rows := rows + [authored[i].(overridden := true)];
      }
    }
    assert authored[..|authored|] == authored;
  }

  lemma OneMoreService(d: Derivation, ids: seq<string>, i: nat)
    requires i < |ids| && ids[i] in d.topology.services
    ensures var svc := d.topology.services[ids[i]];
            RowsOf(d, ids[..i + 1]) == RowsOf(d, ids[..i]) + RowsFor(d, svc, EnvironmentsOf(d.topology, svc))
  {
    hide RowsFor, EnvironmentsOf;
    assert ids[..i + 1][..i] == ids[..i];
  }

  /** Every Service's rows, Services in id order. */
  method TopologyRowsLoop(d: Derivation, reading: Estate, authored: map<Row, EstateRow>, onboarded: map<string, int>)
    returns (rows: seq<EstateRow>, derived: set<Row>)
    requires reading == ForEvaluation(d.reading, d.now)
    requires Indexed(d.authored, authored, onboarded)
    ensures rows == TopologyRows(d)
    ensures derived == Rows(rows)
  {
    hide RowsFor, EnvironmentsOf, Rows, ForEvaluation, Indexed, Ascending, RowsOf;
    var ids := Ascending(d.topology.services.Keys);
    derived, rows := {}, [];
    NoRows();
    NoServices(d);
    assert ids[..0] == [];
    for i := 0 to |ids|
      invariant rows == RowsOf(d, ids[..i])
      invariant derived == Rows(rows)
    {
      assert ids[i] in ids;
      OneMoreService(d, ids, i);
      rows, derived := ServiceRows(d, d.topology.services[ids[i]], reading, authored, onboarded, rows, derived);
    }
    assert ids[..|ids|] == ids;
  }

  method DeriveLoop(d: Derivation) returns (rows: seq<EstateRow>)
    ensures rows == Derive(d)
  {
    hide TopologyRows, Rows, ForEvaluation, Extras, RowLess, Sort, Indexed;
    var reading := ForEvaluationLoop(d.reading, d.now);
    var authored, onboarded := IndexAuthored(d.authored);
    var derived: set<Row>;
    rows, derived := TopologyRowsLoop(d, reading, authored, onboarded);
    rows := ExtrasLoop(d.authored, derived, rows);
    rows := Sort(RowLess, rows);
  }

  lemma NoServices(d: Derivation)
    ensures RowsOf(d, []) == []
  {
  }

  lemma NoRows()
    ensures Rows([]) == {}
  {
  }

  // ---- nothing is lost, nothing is doubled -------------------------------

  /** The topology puts the Service in this Environment. */
  ghost predicate HasRow(topo: Topology, row: Row) {
    row.service in topo.services && row.environment in EnvironmentSet(topo, topo.services[row.service])
  }

  ghost predicate AuthoredRow(authored: seq<EstateRow>, row: Row) {
    exists a :: a in authored && a.row == row
  }

  /** One authored row per Service and Environment, as the estate loader
      insists. */
  ghost predicate OneRowEach(rows: seq<EstateRow>) {
    forall i, j :: 0 <= i < j < |rows| ==> rows[i].row != rows[j].row
  }

  lemma {:induction false} OverrideFound(authored: seq<EstateRow>, row: Row)
    ensures Override(authored, row).Some? <==> AuthoredRow(authored, row)
  {
    if authored != [] {
      var n := |authored| - 1;
      assert authored == authored[..n] + [authored[n]];
      OverrideFound(authored[..n], row);
      if authored[n].row == row { assert authored[n] in authored; }
    }
  }

  lemma {:induction false} OverrideIsThatRow(authored: seq<EstateRow>, i: nat)
    requires i < |authored| && OneRowEach(authored)
    ensures Override(authored, authored[i].row) == Some(authored[i])
  {
    var n := |authored| - 1;
    if i < n { OverrideIsThatRow(authored[..n], i); }
  }

  lemma RowForKeepsKey(d: Derivation, svc: Service, env: string)
    ensures RowFor(d, svc, env).row == Row(svc.id, env)
  {
    hide EffectiveFor;
    if Override(d.authored, Row(svc.id, env)).Some? { OverrideIsForRow(d.authored, Row(svc.id, env)); }
  }

  lemma {:induction false} RowsForAt(d: Derivation, svc: Service, environments: seq<string>)
    ensures |RowsFor(d, svc, environments)| == |environments|
    ensures forall i :: 0 <= i < |environments| ==> RowsFor(d, svc, environments)[i] == RowFor(d, svc, environments[i])
  {
    hide RowFor;
    if environments != [] { RowsForAt(d, svc, environments[..|environments| - 1]); }
  }

  lemma {:induction false} RowsOfAre(d: Derivation, ids: seq<string>, r: EstateRow)
    requires Keyed(d.topology)
    requires forall id :: id in ids ==> id in d.topology.services
    ensures r in RowsOf(d, ids) <==>
      && r.row.service in ids
      && HasRow(d.topology, r.row)
      && r == RowFor(d, d.topology.services[r.row.service], r.row.environment)
  {
    hide RowFor, EnvironmentSet;
    if ids != [] {
      var n := |ids| - 1;
      var svc := d.topology.services[ids[n]];
      assert ids == ids[..n] + [ids[n]];
      RowsOfAre(d, ids[..n], r);
      var environments := EnvironmentsOf(d.topology, svc);
      RowsForAt(d, svc, environments);
      if r in RowsFor(d, svc, environments) {
        var i :| 0 <= i < |environments| && r == RowFor(d, svc, environments[i]);
        RowForKeepsKey(d, svc, environments[i]);
        assert environments[i] in environments;
      }
      if r.row.service == ids[n] && HasRow(d.topology, r.row) && r == RowFor(d, svc, r.row.environment) {
        var i :| 0 <= i < |environments| && environments[i] == r.row.environment;
        assert RowsFor(d, svc, environments)[i] == r;
      }
    }
  }

  lemma {:induction false} RowsOfOnce(d: Derivation, ids: seq<string>)
    requires Keyed(d.topology)
    requires forall id :: id in ids ==> id in d.topology.services
    requires Distinct(ids)
    ensures OneRowEach(RowsOf(d, ids))
  {
    hide RowFor, EnvironmentSet;
    if ids != [] {
      var n := |ids| - 1;
      var svc := d.topology.services[ids[n]];
      RowsOfOnce(d, ids[..n]);
      var environments := EnvironmentsOf(d.topology, svc);
      var before, after := RowsOf(d, ids[..n]), RowsFor(d, svc, environments);
      RowsForAt(d, svc, environments);
      forall i, j | 0 <= i < |before| && 0 <= j < |after| ensures before[i].row != after[j].row {
        RowsOfAre(d, ids[..n], before[i]);
        RowForKeepsKey(d, svc, environments[j]);
        assert before[i] in before;
        assert svc.id == ids[n];
      }
      forall i, j | 0 <= i < j < |after| ensures after[i].row != after[j].row {
        RowForKeepsKey(d, svc, environments[i]);
        RowForKeepsKey(d, svc, environments[j]);
        LessIrreflexive(environments[i]);
      }
    }
  }

  lemma TopologyRowsAre(d: Derivation, r: EstateRow)
    requires Keyed(d.topology)
    ensures r in TopologyRows(d) <==>
      HasRow(d.topology, r.row) && r == RowFor(d, d.topology.services[r.row.service], r.row.environment)
  {
    RowsOfAre(d, Ascending(d.topology.services.Keys), r);
  }

  lemma TopologyKeysAre(d: Derivation, row: Row)
    requires Keyed(d.topology)
    ensures row in Rows(TopologyRows(d)) <==> HasRow(d.topology, row)
  {
    hide RowFor, TopologyRows, EnvironmentSet;
    if row in Rows(TopologyRows(d)) {
      var r :| r in TopologyRows(d) && r.row == row;
      TopologyRowsAre(d, r);
    }
    if HasRow(d.topology, row) {
      var svc := d.topology.services[row.service];
      RowForKeepsKey(d, svc, row.environment);
      TopologyRowsAre(d, RowFor(d, svc, row.environment));
    }
  }

  lemma {:induction false} ExtrasAre(authored: seq<EstateRow>, derived: set<Row>, r: EstateRow)
    ensures r in Extras(authored, derived) <==>
      r.row !in derived && exists a :: a in authored && r == a.(overridden := true)
  {
    if authored != [] {
      var n := |authored| - 1;
      assert authored == authored[..n] + [authored[n]];
      ExtrasAre(authored[..n], derived, r);
    }
  }

  lemma {:induction false} ExtrasOnce(authored: seq<EstateRow>, derived: set<Row>)
    requires OneRowEach(authored)
    ensures OneRowEach(Extras(authored, derived))
  {
    if authored != [] {
      var n := |authored| - 1;
      ExtrasOnce(authored[..n], derived);
      var before := Extras(authored[..n], derived);
      forall i | 0 <= i < |before| ensures before[i].row != authored[n].row {
        ExtrasAre(authored[..n], derived, before[i]);
        var a :| a in authored[..n] && before[i] == a.(overridden := true);
        var k :| 0 <= k < n && authored[k] == a;
      }
    }
  }

  lemma RowOrder()
    ensures WeakOrder(RowLess)
    ensures forall a: EstateRow, b: EstateRow :: a.row != b.row ==> RowLess(a, b) || RowLess(b, a)
  {
    StringOrder();
    forall a: EstateRow, b: EstateRow | a.row != b.row ensures RowLess(a, b) || RowLess(b, a) {
      LessTotal(a.row.service, b.row.service);
      LessTotal(a.row.environment, b.row.environment);
    }
    forall x, y | RowLess(x, y) ensures !RowLess(y, x) {}
    forall x, y, z | !RowLess(y, x) && !RowLess(z, y) ensures !RowLess(z, x) {
      LessTotal(x.row.service, y.row.service);
      LessTotal(y.row.service, z.row.service);
      LessTotal(x.row.service, z.row.service);
    }
  }

  /** A Path of the Service opens on a Tier of that Environment, and the
      Environment has a name. */
  ghost predicate Routed(topo: Topology, row: Row) {
    && row.service in topo.services && row.environment != ""
    && exists p :: p in topo.services[row.service].paths && p != [] && p[0] in topo.tiers && topo.tiers[p[0]].environment == row.environment
  }

  lemma RoutedIs(topo: Topology, row: Row)
    ensures HasRow(topo, row) <==> Routed(topo, row)
  {
    if row.service in topo.services {
      var svc := topo.services[row.service];
      if p :| p in svc.paths && p != [] && p[0] in topo.tiers && topo.tiers[p[0]].environment != ""
              && topo.tiers[p[0]].environment == row.environment {
        assert Routed(topo, row);
      }
    }
  }

  /** The last row authored for that key. */
  ghost predicate LastAuthored(authored: seq<EstateRow>, row: Row, a: EstateRow) {
    exists i :: 0 <= i < |authored| && authored[i] == a && a.row == row && forall j :: i < j < |authored| ==> authored[j].row != row
  }

  lemma {:induction false} LastAuthoredIs(authored: seq<EstateRow>, row: Row, a: EstateRow)
    ensures Override(authored, row) == Some(a) <==> LastAuthored(authored, row, a)
  {
    if authored != [] {
      var n := |authored| - 1;
      LastAuthoredIs(authored[..n], row, a);
      if authored[n].row != row && LastAuthored(authored[..n], row, a) {
        var i :| 0 <= i < n && authored[..n][i] == a && forall j :: i < j < n ==> authored[..n][j].row != row;
        forall j | i < j < |authored| ensures authored[j].row != row { if j < n { assert authored[..n][j] == authored[j]; } }
        assert authored[i] == a;
      }
      if LastAuthored(authored, row, a) && authored[n].row != row {
        var i :| 0 <= i < |authored| && authored[i] == a && forall j :: i < j < |authored| ==> authored[j].row != row;
        assert authored[..n][i] == a;
      }
    }
  }

  /** The Service's onboarding date is the last one authored with it, on
      whatever row. */
  ghost predicate OnboardedAs(authored: seq<EstateRow>, service: string, on: Option<int>) {
    if on.None? then forall a :: a in authored && a.row.service == service ==> a.onboarded == None
    else exists i :: 0 <= i < |authored| && authored[i].row.service == service && authored[i].onboarded == on
           && forall j :: i < j < |authored| && authored[j].row.service == service ==> authored[j].onboarded == None
  }

  lemma {:induction false} OnboardedIs(authored: seq<EstateRow>, service: string)
    ensures OnboardedAs(authored, service, OnboardedOn(authored, service))
  {
    if authored != [] {
      var n := |authored| - 1;
      assert authored == authored[..n] + [authored[n]];
      OnboardedIs(authored[..n], service);
      var on := OnboardedOn(authored, service);
      if authored[n].row.service == service && authored[n].onboarded.Some? {
        assert authored[n].onboarded == on;
      } else if on.Some? {
        var i :| 0 <= i < n && authored[..n][i].row.service == service && authored[..n][i].onboarded == on
          && forall j :: i < j < n && authored[..n][j].row.service == service ==> authored[..n][j].onboarded == None;
        forall j | i < j < |authored| && authored[j].row.service == service ensures authored[j].onboarded == None {
          if j < n { assert authored[..n][j] == authored[j]; }
        }
        assert authored[i].onboarded == on;
      }
    }
  }

  /** A row the topology gives: the last one authored for it, marked, or with
      none the collectors' reading under the Service's class and date. */
  ghost predicate GivenRow(d: Derivation, r: EstateRow) {
    && Routed(d.topology, r.row)
    && if AuthoredRow(d.authored, r.row) then exists a :: LastAuthored(d.authored, r.row, a) && r == a.(overridden := true)
       else
         var svc := d.topology.services[r.row.service];
         && r.effective == EffectiveFor(d.topology, svc, r.row.environment, ForEvaluation(d.reading, d.now))
         && r.class_ == svc.class_ && OnboardedAs(d.authored, r.row.service, r.onboarded)
         && r.reason == "" && !r.overridden
  }

  lemma {:induction false} OneDate(authored: seq<EstateRow>, service: string, on: Option<int>, other: Option<int>)
    requires OnboardedAs(authored, service, on) && OnboardedAs(authored, service, other)
    ensures on == other
  {
    if on.Some? && other.Some? {
      var i :| 0 <= i < |authored| && authored[i].row.service == service && authored[i].onboarded == on
        && forall j :: i < j < |authored| && authored[j].row.service == service ==> authored[j].onboarded == None;
      var k :| 0 <= k < |authored| && authored[k].row.service == service && authored[k].onboarded == other
        && forall j :: k < j < |authored| && authored[j].row.service == service ==> authored[j].onboarded == None;
      assert i == k;
    }
  }

  lemma GivenRowIs(d: Derivation, r: EstateRow)
    requires Keyed(d.topology)
    ensures GivenRow(d, r) <==>
      HasRow(d.topology, r.row) && r == RowFor(d, d.topology.services[r.row.service], r.row.environment)
  {
    RoutedIs(d.topology, r.row);
    OverrideFound(d.authored, r.row);
    hide EnvironmentSet, EffectiveFor, Override, OnboardedOn, AuthoredRow, OnboardedAs, LastAuthored;
    if Override(d.authored, r.row).Some? {
      forall a ensures Override(d.authored, r.row) == Some(a) <==> LastAuthored(d.authored, r.row, a) {
        LastAuthoredIs(d.authored, r.row, a);
      }
    } else {
      OnboardedIs(d.authored, r.row.service);
      if OnboardedAs(d.authored, r.row.service, r.onboarded) {
        OneDate(d.authored, r.row.service, r.onboarded, OnboardedOn(d.authored, r.row.service));
      }
    }
  }

  lemma DerivedRowsHold(d: Derivation, r: EstateRow)
    requires Keyed(d.topology)
    ensures r in Derive(d) <==>
      || (HasRow(d.topology, r.row) && r == RowFor(d, d.topology.services[r.row.service], r.row.environment))
      || (!HasRow(d.topology, r.row) && exists a :: a in d.authored && r == a.(overridden := true))
  {
    hide RowFor, TopologyRows, EnvironmentSet;
    var derived := Rows(TopologyRows(d));
    SortMembers(RowLess, TopologyRows(d) + Extras(d.authored, derived));
    TopologyRowsAre(d, r);
    ExtrasAre(d.authored, derived, r);
    TopologyKeysAre(d, r.row);
  }

  /** Every derived row is one the topology gives or one authored beside it,
      marked. */
  lemma DerivedRowsAre(d: Derivation, r: EstateRow)
    requires Keyed(d.topology)
    ensures r in Derive(d) <==>
      GivenRow(d, r) || (!Routed(d.topology, r.row) && exists a :: a in d.authored && r == a.(overridden := true))
  {
    hide RowFor, GivenRow, Routed, HasRow, Derive;
    DerivedRowsHold(d, r);
    GivenRowIs(d, r);
    RoutedIs(d.topology, r.row);
  }

  /** The rows stand in Service order and, within a Service, in Environment
      order. */
  lemma DerivedIsSorted(d: Derivation, i: nat, j: nat)
    requires i < j < |Derive(d)|
    ensures var a, b := Derive(d)[i].row, Derive(d)[j].row;
      Less(a.service, b.service) || (a.service == b.service && (Less(a.environment, b.environment) || a.environment == b.environment))
  {
    var rows := TopologyRows(d) + Extras(d.authored, Rows(TopologyRows(d)));
    RowOrder();
    SortSorts(RowLess, rows);
    var a, b := Derive(d)[i].row, Derive(d)[j].row;
    assert !RowLess(Derive(d)[j], Derive(d)[i]);
    LessTotal(a.service, b.service);
    LessTotal(a.environment, b.environment);
    hide TopologyRows, Extras, Less;
  }

  /** Which authored rows survive, whatever was authored: one the topology
      derives nothing for always does, and one it derives a row for does
      exactly when the last authored row of that key says the same. */
  lemma AuthoredSurvivesExactly(d: Derivation, a: EstateRow)
    requires Keyed(d.topology) && a in d.authored
    ensures a.(overridden := true) in Derive(d) <==>
      !Routed(d.topology, a.row) || exists b :: LastAuthored(d.authored, a.row, b) && b.(overridden := true) == a.(overridden := true)
  {
    RoutedIs(d.topology, a.row);
    if Override(d.authored, a.row).Some? { LastAuthoredIs(d.authored, a.row, Override(d.authored, a.row).value); }
    forall b ensures Override(d.authored, a.row) == Some(b) <==> LastAuthored(d.authored, a.row, b) { LastAuthoredIs(d.authored, a.row, b); }
    hide LastAuthored, Override, Routed, AuthoredRow;
    hide EffectiveFor, EnvironmentSet;
    DerivedRowsHold(d, a.(overridden := true));
    OverrideFound(d.authored, a.row);
  }

  /** With one authored row each, the derived estate is exactly the union:
      strictly sorted, so nothing is doubled; every key of either side, so
      nothing is lost; authored rows whole and marked; the rest read off the
      collectors. */
  lemma DerivedEstateIsTheUnion(d: Derivation)
    requires Keyed(d.topology) && OneRowEach(d.authored)
    ensures Increasing(RowLess, Derive(d))
    ensures forall row :: AuthoredRow(Derive(d), row) <==> Routed(d.topology, row) || AuthoredRow(d.authored, row)
    ensures forall a :: a in d.authored ==> a.(overridden := true) in Derive(d)
    ensures forall r :: r in Derive(d) && !AuthoredRow(d.authored, r.row) ==>
      && Routed(d.topology, r.row)
      && !r.overridden
      && r.effective == EffectiveFor(d.topology, d.topology.services[r.row.service], r.row.environment, ForEvaluation(d.reading, d.now))
      && r.class_ == d.topology.services[r.row.service].class_
      && OnboardedAs(d.authored, r.row.service, r.onboarded)
  {
    hide EffectiveFor, TopologyRows, EnvironmentSet, Derive, Routed, OnboardedOn, OnboardedAs;
    forall row ensures HasRow(d.topology, row) <==> Routed(d.topology, row) { RoutedIs(d.topology, row); }
    forall service ensures OnboardedAs(d.authored, service, OnboardedOn(d.authored, service)) { OnboardedIs(d.authored, service); }
    DerivedIsIncreasing(d);
    forall a | a in d.authored ensures a.(overridden := true) in Derive(d) {
      AuthoredSurvivesExactly(d, a);
      var i :| 0 <= i < |d.authored| && d.authored[i] == a;
      OverrideIsThatRow(d.authored, i);
    }
    forall r | r in Derive(d)
      ensures HasRow(d.topology, r.row) || AuthoredRow(d.authored, r.row)
      ensures !AuthoredRow(d.authored, r.row) ==>
        HasRow(d.topology, r.row) && r == RowFor(d, d.topology.services[r.row.service], r.row.environment)
    {
      DerivedRowsHold(d, r);
      OverrideFound(d.authored, r.row);
    }
    forall r | r in Derive(d) && !AuthoredRow(d.authored, r.row) ensures Override(d.authored, r.row).None? {
      OverrideFound(d.authored, r.row);
    }
    forall row | HasRow(d.topology, row) || AuthoredRow(d.authored, row) ensures AuthoredRow(Derive(d), row) {
      if HasRow(d.topology, row) {
        var r := RowFor(d, d.topology.services[row.service], row.environment);
        RowForKeepsKey(d, d.topology.services[row.service], row.environment);
        DerivedRowsHold(d, r);
      } else {
        var a :| a in d.authored && a.row == row;
        assert a.(overridden := true) in Derive(d);
      }
    }
  }

  lemma TopologyRowsOnce(d: Derivation)
    requires Keyed(d.topology)
    ensures OneRowEach(TopologyRows(d))
  {
    var ids := Ascending(d.topology.services.Keys);
    forall i, j | 0 <= i < j < |ids| ensures ids[i] != ids[j] { LessIrreflexive(ids[i]); }
    RowsOfOnce(d, ids);
  }

  /** What the topology gives and what is authored beside it share no key. */
  lemma BothPassesOnce(topology: seq<EstateRow>, authored: seq<EstateRow>)
    requires OneRowEach(topology) && OneRowEach(authored)
    ensures OneRowEach(topology + Extras(authored, Rows(topology)))
  {
    var extras := Extras(authored, Rows(topology));
    ExtrasOnce(authored, Rows(topology));
    hide Extras;
    forall i, j | 0 <= i < |topology| && 0 <= j < |extras| ensures topology[i].row != extras[j].row {
      ExtrasAre(authored, Rows(topology), extras[j]);
      assert topology[i] in topology;
    }
  }

  lemma SortRowsIncreases(rows: seq<EstateRow>)
    requires OneRowEach(rows)
    ensures Increasing(RowLess, Sort(RowLess, rows))
  {
    RowOrder();
    hide RowLess;
    SortDistinct(RowLess, rows);
  }

  lemma DerivedIsIncreasing(d: Derivation)
    requires Keyed(d.topology) && OneRowEach(d.authored)
    ensures Increasing(RowLess, Derive(d))
  {
    TopologyRowsOnce(d);
    hide TopologyRows, Extras, Rows, OneRowEach, Increasing;
    BothPassesOnce(TopologyRows(d), d.authored);
    SortRowsIncreases(TopologyRows(d) + Extras(d.authored, Rows(TopologyRows(d))));
  }
}
