/** One landed schema-conformance requirement judged against one Schema
    Registry version. The functions say what each part of the verdict means;
    the methods compute the same parts step by step. */
module SchemaJudge {
  import opened Base
  import opened Verdicts
  import opened SchemaModel
  import opened SchemaScope

  // -------------------------------------------------------- the name readings

  predicate Readable(a: Assertion, kind: Signal, ev: Evidence) {
    a.ReadingOf(kind) in ev.names && ev.names[a.ReadingOf(kind)].known
  }

  /** The presence reading answers when the row carries one; otherwise a name
      reading that names nothing is the absence. */
  predicate Arrived(kind: Signal, window: int, names: NameSet, ev: Evidence) {
    if window in ev.observed && kind in ev.observed[window] && ev.observed[window][kind].known
    then ev.observed[window][kind].present
    else names.names != []
  }

  predicate Blind(a: Assertion, kind: Signal, ev: Evidence) {
    a.Covers(kind) && !Readable(a, kind, ev)
  }

  predicate Silent(a: Assertion, kind: Signal, ev: Evidence) {
    a.Covers(kind) && Readable(a, kind, ev) && !Arrived(kind, a.window, ev.names[a.ReadingOf(kind)], ev)
  }

  predicate Usable(a: Assertion, kind: Signal, ev: Evidence) {
    a.Covers(kind) && Readable(a, kind, ev) && Arrived(kind, a.window, ev.names[a.ReadingOf(kind)], ev)
  }

  predicate Clipped(a: Assertion, kind: Signal, ev: Evidence) {
    Usable(a, kind, ev) && ev.names[a.ReadingOf(kind)].truncated
  }

  predicate Names(a: Assertion, kind: Signal, ev: Evidence, attribute: string) {
    Usable(a, kind, ev) && attribute in ev.names[a.ReadingOf(kind)].names
  }

  function KindNotes(a: Assertion, kind: Signal, ev: Evidence): set<Note> {
    if !a.Covers(kind) then {}
    else if a.ReadingOf(kind) !in ev.names then {NoNameReading(a.ReadingOf(kind))}
    else if Blind(a, kind, ev) then {NamesUnavailable(kind)}
    else if Silent(a, kind, ev) then {SignalNotArrived(kind)}
    else if Clipped(a, kind, ev) then {NamesTruncated(kind)}
    else {}
  }

  datatype ScopeReading = ScopeReading(
    present: set<string>, outcome: Outcome, judgeable: bool, truncated: bool, notes: set<Note>)

  /** The readings over some of the signals: what is in use on any of them,
      and the worst thing any of them says. */
  function ReadSignals(a: Assertion, kinds: seq<Signal>, ev: Evidence): ScopeReading {
    ScopeReading(
      set kind, n | kind in kinds && Usable(a, kind, ev) && n in ev.names[a.ReadingOf(kind)].names :: n,
      if exists kind :: kind in kinds && Silent(a, kind, ev) then NotDelivered
      else if exists kind :: kind in kinds && Blind(a, kind, ev) then Unknown
      else Compliant,
      exists kind :: kind in kinds && Usable(a, kind, ev),
      exists kind :: kind in kinds && Clipped(a, kind, ev),
      set kind, note | kind in kinds && note in KindNotes(a, kind, ev) :: note)
  }

  function ReadScope(a: Assertion, ev: Evidence): ScopeReading {
    ReadSignals(a, SIGNALS, ev)
  }

  // --------------------------------------------------- the grouping-key readings

  /** The signal a group's records arrive on and the value that locates it;
      only a metric group states both. */
  function GroupKeyValue(g: Group): Option<(Signal, string)> {
    if g.kind.MetricGroup? && g.metricName != "" then Some((Metrics, g.metricName)) else None
  }

  datatype Arrival = InPlay | Absent | Unsure

  predicate Located(a: Assertion, g: Group) {
    GroupKeyValue(g).Some? && a.Covers(GroupKeyValue(g).value.0)
  }

  function ArrivalOf(a: Assertion, g: Group, ev: Evidence): Arrival {
    if !Located(a, g) then InPlay
    else
      var key := a.ReadingOf(GroupKeyValue(g).value.0);
      if key !in ev.groups || !ev.groups[key].known then Unsure
      else if GroupKeyValue(g).value.1 in ev.groups[key].names then InPlay
      else if ev.groups[key].truncated then Unsure
      else Absent
  }

  function GroupNotes(a: Assertion, g: Group, ev: Evidence): set<Note> {
    if !Located(a, g) then {}
    else
      var key := a.ReadingOf(GroupKeyValue(g).value.0);
      if key !in ev.groups then {NoGroupReading(key, g.id)}
      else if !ev.groups[key].known then {GroupUnavailable(g.id)}
      else match ArrivalOf(a, g, ev)
        case InPlay => {}
        case Unsure => {GroupTruncated(g.id)}
        case Absent => {GroupAbsent(g.id)}
  }

  datatype GroupVerdict = GroupVerdict(inPlay: seq<Scoped>, absent: bool, unsure: bool, notes: set<Note>)

  function ReadGroups(a: Assertion, groups: seq<Scoped>, ev: Evidence): GroupVerdict {
    GroupVerdict(
      Filter((s: Scoped) => ArrivalOf(a, s.group, ev) == InPlay, groups),
      exists s :: s in groups && ArrivalOf(a, s.group, ev) == Absent,
      exists s :: s in groups && ArrivalOf(a, s.group, ev) == Unsure,
      set s, note | s in groups && note in GroupNotes(a, s.group, ev) :: note)
  }

  // --------------------------------------------------------- the value readings

  function DeclaredValues(members: seq<Member>): set<string> {
    set m | m in members && (m.value != "" || m.id != "") :: if m.value != "" then m.value else m.id
  }

  datatype EnumVerdict = EnumVerdict(undeclared: set<string>, unknown: bool, notes: set<Note>)

  predicate ReadFor(a: Assertion, kind: Signal, attribute: string, ev: Evidence) {
    a.Covers(kind) && ev.InUse(a.ReadingOf(kind), attribute)
  }

  function ValueKey(a: Assertion, kind: Signal, attribute: string): ValueReading {
    ValueReading(kind, a.window, attribute)
  }

  /** A reading that cannot prove the attribute clean. */
  predicate Unproven(a: Assertion, kind: Signal, attribute: string, ev: Evidence) {
    var key := ValueKey(a, kind, attribute);
    key !in ev.values || !ev.values[key].known || ev.values[key].truncated
  }

  /** What one signal's reading found that the registry does not declare. */
  function UndeclaredOn(a: Assertion, d: Demand, kind: Signal, ev: Evidence): set<string> {
    var key := ValueKey(a, kind, d.attribute);
    if ReadFor(a, kind, d.attribute, ev) && key in ev.values && ev.values[key].known
    then set v | v in ev.values[key].values && v !in DeclaredValues(d.members)
    else {}
  }

  function Undeclared(a: Assertion, d: Demand, kinds: seq<Signal>, ev: Evidence): set<string> {
    set kind, v | kind in kinds && v in UndeclaredOn(a, d, kind, ev) :: v
  }

  function ValueNotes(a: Assertion, kind: Signal, attribute: string, ev: Evidence): set<Note> {
    var key := ValueKey(a, kind, attribute);
    if !ReadFor(a, kind, attribute, ev) then {}
    else if key !in ev.values then {NoValueReading(key)}
    else if !ev.values[key].known then {ValuesUnavailable(key)}
    else if ev.values[key].truncated then {ValuesTruncated(key)}
    else {}
  }

  predicate Judged(a: Assertion, d: Demand, kinds: seq<Signal>, ev: Evidence) {
    d.members != [] && exists kind :: kind in kinds && ReadFor(a, kind, d.attribute, ev)
  }

  predicate Doubtful(a: Assertion, attribute: string, kinds: seq<Signal>, ev: Evidence) {
    exists kind :: kind in kinds && ReadFor(a, kind, attribute, ev) && Unproven(a, kind, attribute, ev)
  }

  function EnumNotes(a: Assertion, attribute: string, kinds: seq<Signal>, ev: Evidence): set<Note> {
    set kind, note | kind in kinds && note in ValueNotes(a, kind, attribute, ev) :: note
  }

  /** A value found is proof whatever else was clipped; finding none is proof
      only where every reading was whole. */
  function JudgeEnum(a: Assertion, d: Demand, kinds: seq<Signal>, ev: Evidence): EnumVerdict {
    var bad := Undeclared(a, d, kinds, ev);
    if bad != {} then EnumVerdict(bad, false, {})
    else EnumVerdict({}, Doubtful(a, d.attribute, kinds, ev), EnumNotes(a, d.attribute, kinds, ev))
  }

  function ReadEnums(a: Assertion, demands: seq<Demand>, ev: Evidence): map<string, EnumVerdict> {
    if demands == [] then map[]
    else
      var d, m := demands[|demands| - 1], ReadEnums(a, demands[..|demands| - 1], ev);
      if Judged(a, d, SIGNALS, ev) then m[d.attribute := JudgeEnum(a, d, SIGNALS, ev)] else m
  }

  /** In a list with one demand per attribute, the map holds exactly the
      judged ones. */
  lemma {:induction false} ReadEnumsMeaning(a: Assertion, demands: seq<Demand>, ev: Evidence, d: Demand)
    requires Increasing(ByAttribute, demands) && d in demands
    ensures d.attribute in ReadEnums(a, demands, ev) <==> Judged(a, d, SIGNALS, ev)
    ensures Judged(a, d, SIGNALS, ev) ==> ReadEnums(a, demands, ev)[d.attribute] == JudgeEnum(a, d, SIGNALS, ev)
  {
    var n := |demands| - 1;
    LessIrreflexive(d.attribute);
    if d in demands[..n] {
      ReadEnumsMeaning(a, demands[..n], ev, d);
      var i :| 0 <= i < n && demands[i] == d;
      assert ByAttribute(demands[i], demands[n]);
    } else {
      assert demands[n] == d;
      NotYetRead(a, demands[..n], ev, d.attribute);
    }
  }

  lemma {:induction false} NotYetRead(a: Assertion, demands: seq<Demand>, ev: Evidence, attribute: string)
    requires forall d :: d in demands ==> Less(d.attribute, attribute)
    ensures attribute !in ReadEnums(a, demands, ev)
  {
    LessIrreflexive(attribute);
    if demands != [] { NotYetRead(a, demands[..|demands| - 1], ev, attribute); }
  }

  // --------------------------------------------------------------- the findings

  function Keys(ds: seq<Demand>): (r: seq<string>)
    ensures |r| == |ds| && forall i :: 0 <= i < |ds| ==> r[i] == ds[i].attribute
  {
    seq(|ds|, i requires 0 <= i < |ds| => ds[i].attribute)
  }

  function Missing(at: seq<Demand>, present: set<string>): (r: seq<string>)
    ensures |r| <= |at|
    ensures forall k :: k in r <==> k !in present && exists d :: d in at && d.attribute == k
  {
    var absent := Filter((d: Demand) => d.attribute !in present, at);
    assert forall i :: 0 <= i < |absent| ==> absent[i] in absent;
    assert forall k :: k in Keys(absent) ==> exists i :: 0 <= i < |absent| && absent[i].attribute == k;
    assert forall d :: d in absent ==> d.attribute in Keys(absent);
    Keys(Filter((d: Demand) => d.attribute !in present, at))
  }

  predicate Breached(at: seq<Demand>, enums: map<string, EnumVerdict>) {
    exists d :: d in at && d.attribute in enums && enums[d.attribute].undeclared != {}
  }

  predicate EnumUnsure(d: Demand, enums: map<string, EnumVerdict>) {
    d.attribute in enums && enums[d.attribute].undeclared == {} && enums[d.attribute].unknown
  }

  predicate SomeUnsure(at: seq<Demand>, enums: map<string, EnumVerdict>) {
    exists d :: d in at && EnumUnsure(d, enums)
  }

  function UnsureNotes(at: seq<Demand>, enums: map<string, EnumVerdict>): set<Note> {
    set d, note | d in at && EnumUnsure(d, enums) && note in enums[d.attribute].notes :: note
  }

  /** Only the required level moves the outcome off what the readings said. */
  function OutcomeAt(level: Level, at: seq<Demand>, r: ScopeReading, enums: map<string, EnumVerdict>): Outcome {
    if !r.judgeable || level != Required then r.outcome
    else
      var missed := if Missing(at, r.present) == [] then Compliant else if r.truncated then Unknown else Misconfigured;
      var breached := if Breached(at, enums) then Misconfigured else Compliant;
      var unsure := if SomeUnsure(at, enums) then Unknown else Compliant;
      Worst(Worst(Worst(r.outcome, missed), breached), unsure)
  }

  function SchemaFinding(req: string, level: Level, at: seq<Demand>, r: ScopeReading, enums: map<string, EnumVerdict>): Finding {
    var missing := if r.judgeable then Missing(at, r.present) else [];
    Finding(
      req,
      OutcomeAt(level, at, r, enums),
      FacetNone,
      Some(GradeOf(level)),
      if r.judgeable && level == Recommended && at != [] then Some((|at| - |missing|, |at|)) else None,
      WaiverNone,
      missing,
      r.notes + (if r.judgeable then UnsureNotes(at, enums) else {}))
  }

  function AtLevel(demands: seq<Demand>, level: Level): seq<Demand> {
    Filter((d: Demand) => d.level == level, demands)
  }

  /** The required level always has its finding; any other has one when
      something is demanded at it. */
  function FindingsAt(req: string, level: Level, demands: seq<Demand>, r: ScopeReading, enums: map<string, EnumVerdict>): seq<Finding> {
    var at := AtLevel(demands, level);
    if at == [] && level != Required then [] else [SchemaFinding(req, level, at, r, enums)]
  }

  function FindingsFrom(req: string, levels: seq<Level>, demands: seq<Demand>, r: ScopeReading, enums: map<string, EnumVerdict>): seq<Finding> {
    if levels == [] then []
    else
      FindingsFrom(req, levels[..|levels| - 1], demands, r, enums)
      + FindingsAt(req, levels[|levels| - 1], demands, r, enums)
  }

  /** The reading every level's finding shares: the name readings' verdict,
      worsened by what the grouping-key readings say. */
  function SharedReading(a: Assertion, groups: seq<Scoped>, ev: Evidence): ScopeReading {
    var r, g := ReadScope(a, ev), ReadGroups(a, groups, ev);
    var lost := if g.absent then Worst(r.outcome, NotDelivered) else r.outcome;
    r.(outcome := if g.unsure then Worst(lost, Unknown) else lost, notes := r.notes + g.notes)
  }

  function DemandsInPlay(a: Assertion, reg: Registry, ev: Evidence): seq<Demand> {
    DemandsIn(ReadGroups(a, ScopedGroups(reg, a.scope), ev).inPlay)
  }

  function JudgeAgainst(req: string, a: Assertion, reg: Registry, ev: Evidence): seq<Finding> {
    var demands := DemandsInPlay(a, reg, ev);
    FindingsFrom(req, LEVELS, demands, SharedReading(a, ScopedGroups(reg, a.scope), ev), ReadEnums(a, demands, ev))
  }

  /** The requirement's own verdict: its required-level finding. */
  function Verdict(req: string, a: Assertion, reg: Registry, ev: Evidence): Finding {
    var demands := DemandsInPlay(a, reg, ev);
    SchemaFinding(req, Required, AtLevel(demands, Required), SharedReading(a, ScopedGroups(reg, a.scope), ev), ReadEnums(a, demands, ev))
  }

  lemma FourLevels(req: string, demands: seq<Demand>, r: ScopeReading, enums: map<string, EnumVerdict>)
    ensures FindingsFrom(req, LEVELS, demands, r, enums)
         == FindingsAt(req, Required, demands, r, enums) + FindingsAt(req, ConditionallyRequired, demands, r, enums)
            + FindingsAt(req, Recommended, demands, r, enums) + FindingsAt(req, OptIn, demands, r, enums)
  {
    hide FindingsAt;
    var two, three := [Required, ConditionallyRequired], [Required, ConditionallyRequired, Recommended];
    assert [Required][..0] == [];
    assert two[..1] == [Required];
    assert three[..2] == two;
    assert LEVELS[..3] == three;
    assert FindingsFrom(req, [Required], demands, r, enums) == FindingsAt(req, Required, demands, r, enums);
    assert FindingsFrom(req, two, demands, r, enums)
        == FindingsFrom(req, [Required], demands, r, enums) + FindingsAt(req, ConditionallyRequired, demands, r, enums);
    assert FindingsFrom(req, three, demands, r, enums)
        == FindingsFrom(req, two, demands, r, enums) + FindingsAt(req, Recommended, demands, r, enums);
  }

  /** Exactly one scored finding, and it is the first: the verdict. */
  lemma OneScoredFinding(req: string, a: Assertion, reg: Registry, ev: Evidence)
    ensures var fs := JudgeAgainst(req, a, reg, ev);
      && |fs| > 0 && fs[0] == Verdict(req, a, reg, ev) && fs[0].Scored()
      && forall i :: 0 < i < |fs| ==> !fs[i].Scored()
  {
    var demands, shared := DemandsInPlay(a, reg, ev), SharedReading(a, ScopedGroups(reg, a.scope), ev);
    var enums := ReadEnums(a, demands, ev);
    FourLevels(req, demands, shared, enums);
    hide FindingsFrom, SharedReading, DemandsInPlay, ReadEnums, OutcomeAt, AtLevel, Missing;
  }

  /** The severity a scope reading can reach, and the only outcomes it has. */
  lemma ReadingOutcomes(a: Assertion, groups: seq<Scoped>, ev: Evidence)
    ensures SharedReading(a, groups, ev).outcome ==
      if (exists kind :: kind in SIGNALS && Silent(a, kind, ev)) || (exists s :: s in groups && ArrivalOf(a, s.group, ev) == Absent) then NotDelivered
      else if (exists kind :: kind in SIGNALS && Blind(a, kind, ev)) || (exists s :: s in groups && ArrivalOf(a, s.group, ev) == Unsure) then Unknown
      else Compliant
  {
  }

  // ----------------------------------------------------------------- the loops

  /** What one more signal adds. */
  function JoinSignal(r: ScopeReading, a: Assertion, kind: Signal, ev: Evidence): ScopeReading {
    ScopeReading(
      r.present + (if Usable(a, kind, ev) then set n | n in ev.names[a.ReadingOf(kind)].names else {}),
      if Silent(a, kind, ev) then Worst(r.outcome, NotDelivered)
      else if Blind(a, kind, ev) then Worst(r.outcome, Unknown)
      else r.outcome,
      r.judgeable || Usable(a, kind, ev),
      r.truncated || Clipped(a, kind, ev),
      r.notes + KindNotes(a, kind, ev))
  }

  lemma ReadSignalsStep(a: Assertion, seen: seq<Signal>, kind: Signal, ev: Evidence)
    ensures ReadSignals(a, seen + [kind], ev) == JoinSignal(ReadSignals(a, seen, ev), a, kind, ev)
  {
  }

  method ReadScopeLoop(a: Assertion, ev: Evidence) returns (r: ScopeReading)
    ensures r == ReadScope(a, ev)
  {
    r := ScopeReading({}, Compliant, false, false, {});
    for i := 0 to |SIGNALS|
      invariant r == ReadSignals(a, SIGNALS[..i], ev)
    {
      var kind := SIGNALS[i];
      ReadSignalsStep(a, SIGNALS[..i], kind, ev);
      assert SIGNALS[..i + 1] == SIGNALS[..i] + [kind];
      r := ReadOneSignal(r, a, kind, ev);
    }
    assert SIGNALS[..|SIGNALS|] == SIGNALS;
  }

  method ReadOneSignal(before: ScopeReading, a: Assertion, kind: Signal, ev: Evidence) returns (r: ScopeReading)
    ensures r == JoinSignal(before, a, kind, ev)
  {
    r := before;
    if !a.Covers(kind) { return; }
    var key := a.ReadingOf(kind);
    if key !in ev.names {
      r := r.(outcome := Worst(r.outcome, Unknown), notes := r.notes + {NoNameReading(key)});
    } else if !ev.names[key].known {
      r := r.(outcome := Worst(r.outcome, Unknown), notes := r.notes + {NamesUnavailable(kind)});
    } else if !Arrived(kind, a.window, ev.names[key], ev) {
      r := r.(outcome := Worst(r.outcome, NotDelivered), notes := r.notes + {SignalNotArrived(kind)});
    } else {
      r := r.(judgeable := true);
      if ev.names[key].truncated {
        r := r.(truncated := true, notes := r.notes + {NamesTruncated(kind)});
      }
      r := r.(present := r.present + set n | n in ev.names[key].names);
    }
  }

  function JoinGroup(v: GroupVerdict, a: Assertion, s: Scoped, ev: Evidence): GroupVerdict {
    var arrival := ArrivalOf(a, s.group, ev);
    GroupVerdict(
      if arrival == InPlay then v.inPlay + [s] else v.inPlay,
      v.absent || arrival == Absent,
      v.unsure || arrival == Unsure,
      v.notes + GroupNotes(a, s.group, ev))
  }

  lemma ReadGroupsStep(a: Assertion, groups: seq<Scoped>, s: Scoped, ev: Evidence)
    ensures ReadGroups(a, groups + [s], ev) == JoinGroup(ReadGroups(a, groups, ev), a, s, ev)
  {
    var keep := (s: Scoped) => ArrivalOf(a, s.group, ev) == InPlay;
    FilterAppend(keep, groups, [s]);
    hide ArrivalOf, GroupNotes;
    var before, after := ReadGroups(a, groups, ev), ReadGroups(a, groups + [s], ev);
    assert s in groups + [s];
    assert forall t :: t in groups + [s] <==> t in groups || t == s;
    assert after.notes == before.notes + GroupNotes(a, s.group, ev);
    assert after.absent == (before.absent || ArrivalOf(a, s.group, ev) == Absent);
    assert after.unsure == (before.unsure || ArrivalOf(a, s.group, ev) == Unsure);
    assert after.inPlay == Filter(keep, groups) + Filter(keep, [s]);
  }

  method ReadOneGroup(before: GroupVerdict, a: Assertion, s: Scoped, ev: Evidence) returns (v: GroupVerdict)
    ensures v == JoinGroup(before, a, s, ev)
  {
    v := before;
    if !Located(a, s.group) {
      v := v.(inPlay := v.inPlay + [s]);
      return;
    }
    var key := a.ReadingOf(GroupKeyValue(s.group).value.0);
    if key !in ev.groups {
      v := v.(unsure := true, notes := v.notes + {NoGroupReading(key, s.group.id)});
    } else if !ev.groups[key].known {
      v := v.(unsure := true, notes := v.notes + {GroupUnavailable(s.group.id)});
    } else if GroupKeyValue(s.group).value.1 in ev.groups[key].names {
      v := v.(inPlay := v.inPlay + [s]);
    } else if ev.groups[key].truncated {
      v := v.(unsure := true, notes := v.notes + {GroupTruncated(s.group.id)});
    } else {
      v := v.(absent := true, notes := v.notes + {GroupAbsent(s.group.id)});
    }
  }

  method ReadGroupsLoop(a: Assertion, groups: seq<Scoped>, ev: Evidence) returns (v: GroupVerdict)
    ensures v == ReadGroups(a, groups, ev)
  {
    v := GroupVerdict([], false, false, {});
    for i := 0 to |groups|
      invariant v == ReadGroups(a, groups[..i], ev)
    {
      hide ReadGroups, JoinGroup;
      ReadGroupsStep(a, groups[..i], groups[i], ev);
      assert groups[..i + 1] == groups[..i] + [groups[i]];
      v := ReadOneGroup(v, a, groups[i], ev);
    }
    assert groups[..|groups|] == groups;
  }

  lemma EnumStep(a: Assertion, d: Demand, seen: seq<Signal>, kind: Signal, ev: Evidence)
    ensures Undeclared(a, d, seen + [kind], ev) == Undeclared(a, d, seen, ev) + UndeclaredOn(a, d, kind, ev)
    ensures EnumNotes(a, d.attribute, seen + [kind], ev) == EnumNotes(a, d.attribute, seen, ev) + ValueNotes(a, kind, d.attribute, ev)
    ensures Doubtful(a, d.attribute, seen + [kind], ev)
       <==> Doubtful(a, d.attribute, seen, ev) || (ReadFor(a, kind, d.attribute, ev) && Unproven(a, kind, d.attribute, ev))
    ensures Judged(a, d, seen + [kind], ev) <==> Judged(a, d, seen, ev) || (d.members != [] && ReadFor(a, kind, d.attribute, ev))
  {
  }

  method ReadEnumLoop(a: Assertion, d: Demand, ev: Evidence) returns (judged: bool, v: EnumVerdict)
    requires d.members != []
    ensures judged <==> Judged(a, d, SIGNALS, ev)
    ensures v == JudgeEnum(a, d, SIGNALS, ev)
  {
    judged := false;
    var undeclared: set<string>, unknown, notes: set<Note> := {}, false, {};
    for i := 0 to |SIGNALS|
      invariant judged <==> Judged(a, d, SIGNALS[..i], ev)
      invariant undeclared == Undeclared(a, d, SIGNALS[..i], ev)
      invariant undeclared == {} ==> unknown == Doubtful(a, d.attribute, SIGNALS[..i], ev)
      invariant undeclared == {} ==> notes == EnumNotes(a, d.attribute, SIGNALS[..i], ev)
    {
      var kind := SIGNALS[i];
      EnumStep(a, d, SIGNALS[..i], kind, ev);
      assert SIGNALS[..i + 1] == SIGNALS[..i] + [kind];
      hide Judged, Undeclared, Doubtful, EnumNotes;
      if ReadFor(a, kind, d.attribute, ev) {
        judged := true;
        var key := ValueKey(a, kind, d.attribute);
        if key !in ev.values {
          unknown, notes := true, notes + {NoValueReading(key)};
        } else if !ev.values[key].known {
          unknown, notes := true, notes + {ValuesUnavailable(key)};
        } else {
          var declared := DeclaredValues(d.members);
          undeclared := undeclared + set got | got in ev.values[key].values && got !in declared;
          if undeclared == {} && ev.values[key].truncated {
            unknown, notes := true, notes + {ValuesTruncated(key)};
          }
        }
      }
    }
    assert SIGNALS[..|SIGNALS|] == SIGNALS;
    v := if undeclared != {} then EnumVerdict(undeclared, false, {}) else EnumVerdict({}, unknown, notes);
  }

  method ReadEnumsLoop(a: Assertion, demands: seq<Demand>, ev: Evidence) returns (out: map<string, EnumVerdict>)
    ensures out == ReadEnums(a, demands, ev)
  {
    out := map[];
    for i := 0 to |demands|
      invariant out == ReadEnums(a, demands[..i], ev)
    {
      assert demands[..i + 1][..i] == demands[..i];
      var d := demands[i];
      if d.members != [] {
        var judged, v := ReadEnumLoop(a, d, ev);
        if judged { out := out[d.attribute := v]; }
      }
    }
    assert demands[..|demands|] == demands;
  }

  lemma MissingOneMore(at: seq<Demand>, d: Demand, present: set<string>)
    ensures Missing(at + [d], present) == Missing(at, present) + if d.attribute in present then [] else [d.attribute]
  {
    FilterAppend((d: Demand) => d.attribute !in present, at, [d]);
  }

  lemma MissingStep(at: seq<Demand>, i: nat, present: set<string>)
    requires i < |at|
    ensures Missing(at[..i + 1], present) == Missing(at[..i], present) + if at[i].attribute in present then [] else [at[i].attribute]
  {
    assert at[..i + 1] == at[..i] + [at[i]];
    MissingOneMore(at[..i], at[i], present);
  }

  method MissingLoop(at: seq<Demand>, present: set<string>) returns (missing: seq<string>)
    ensures missing == Missing(at, present)
  {
    missing := [];
    assert at[..0] == [];
    assert Missing([], present) == [];
    hide Missing;
    for i := 0 to |at|
      invariant missing == Missing(at[..i], present)
    {
      MissingStep(at, i, present);
      if at[i].attribute !in present { missing := missing + [at[i].attribute]; }
    }
    assert at[..|at|] == at;
  }

  lemma EnumTallyStep(at: seq<Demand>, d: Demand, enums: map<string, EnumVerdict>)
    ensures Breached(at + [d], enums) <==> Breached(at, enums) || (d.attribute in enums && enums[d.attribute].undeclared != {})
    ensures SomeUnsure(at + [d], enums) <==> SomeUnsure(at, enums) || EnumUnsure(d, enums)
    ensures UnsureNotes(at + [d], enums) == UnsureNotes(at, enums) + if EnumUnsure(d, enums) then enums[d.attribute].notes else {}
  {
    assert d in at + [d];
    assert forall e :: e in at + [d] <==> e in at || e == d;
  }

  method EnumTally(at: seq<Demand>, enums: map<string, EnumVerdict>) returns (breached: bool, unsure: bool, notes: set<Note>)
    ensures breached <==> Breached(at, enums)
    ensures unsure <==> SomeUnsure(at, enums)
    ensures notes == UnsureNotes(at, enums)
  {
    breached, unsure, notes := false, false, {};
    for i := 0 to |at|
      invariant breached <==> Breached(at[..i], enums)
      invariant unsure <==> SomeUnsure(at[..i], enums)
      invariant notes == UnsureNotes(at[..i], enums)
    {
      EnumTallyStep(at[..i], at[i], enums);
      assert at[..i + 1] == at[..i] + [at[i]];
      hide Breached, SomeUnsure, UnsureNotes;
      if at[i].attribute in enums {
        var v := enums[at[i].attribute];
        if v.undeclared != {} {
          breached := true;
        } else if v.unknown {
          unsure, notes := true, notes + v.notes;
        }
      }
    }
    assert at[..|at|] == at;
  }

  method SchemaFindingLoop(req: string, level: Level, at: seq<Demand>, r: ScopeReading, enums: map<string, EnumVerdict>)
    returns (f: Finding)
    ensures f == SchemaFinding(req, level, at, r, enums)
  {
    f := Finding(req, r.outcome, FacetNone, Some(GradeOf(level)), None, WaiverNone, [], r.notes);
    if !r.judgeable {
      assert f.notes == r.notes + {};
      return;
    }
    var missing := MissingLoop(at, r.present);
    var breached, unsure, notes := EnumTally(at, enums);
    f := f.(missing := missing, notes := r.notes + notes);
    if level == Recommended && |at| > 0 {
      f := f.(coverage := Some((|at| - |missing|, |at|)));
    }
    if missing != [] {
      if r.truncated && level == Required {
        f := f.(outcome := Worst(f.outcome, Unknown));
      } else if level == Required {
        f := f.(outcome := Worst(f.outcome, Misconfigured));
      }
    }
    if breached && level == Required { f := f.(outcome := Worst(f.outcome, Misconfigured)); }
    if unsure && level == Required { f := f.(outcome := Worst(f.outcome, Unknown)); }
  }

  method FindingsLoop(req: string, demands: seq<Demand>, r: ScopeReading, enums: map<string, EnumVerdict>) returns (out: seq<Finding>)
    ensures out == FindingsFrom(req, LEVELS, demands, r, enums)
  {
    out := [];
    for i := 0 to |LEVELS|
      invariant out == FindingsFrom(req, LEVELS[..i], demands, r, enums)
    {
      hide AtLevel, SchemaFinding;
      assert LEVELS[..i + 1][..i] == LEVELS[..i];
      var at := AtLevel(demands, LEVELS[i]);
      if at != [] || LEVELS[i] == Required {
        var f := SchemaFindingLoop(req, LEVELS[i], at, r, enums);
        out := out + [f];
      }
    }
    assert LEVELS[..|LEVELS|] == LEVELS;
  }

  method JudgeAgainstLoop(req: string, a: Assertion, reg: Registry, ev: Evidence) returns (out: seq<Finding>)
    ensures out == JudgeAgainst(req, a, reg, ev)
  {
    hide ReadScope, ScopedGroups, ReadGroups, DemandsIn, ReadEnums, FindingsFrom;
    var reading := ReadScopeLoop(a, ev);
    var scoped := ResolveScope(reg, a.scope);
    var groups := ReadGroupsLoop(a, scoped, ev);
    reading := reading.(notes := reading.notes + groups.notes);
    if groups.absent { reading := reading.(outcome := Worst(reading.outcome, NotDelivered)); }
    if groups.unsure { reading := reading.(outcome := Worst(reading.outcome, Unknown)); }
    var demands := FlattenDemands(groups.inPlay);
    var enums := ReadEnumsLoop(a, demands, ev);
    out := FindingsLoop(req, demands, reading, enums);
  }
}
