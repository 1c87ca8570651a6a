/** The two arms around the landed judgement: the live placement, and the
    second judgement that detects a pin behind the active version. */
module SchemaDrift {
  import opened Base
  import opened Verdicts
  import opened SchemaModel
  import opened SchemaScope
  import opened SchemaJudge
  import opened SchemaAsk

  // ------------------------------------------------------------------ live arm

  /** The level in a finding's own name wins over its severity, and anything
      unrecognised fails closed to required. */
  function LiveLevelOf(f: TapFinding): Level {
    match f.id
    case RequiredNotPresent => Required
    case ConditionallyRequiredNotPresent => ConditionallyRequired
    case RecommendedNotPresent => Recommended
    case OptInNotPresent => OptIn
    case OtherTapId =>
      match f.severity
      case TapViolation => Required
      case TapImprovement => Recommended
      case TapInformation => OptIn
      case TapUnstated => Required
  }

  function LiveBase(live: Liveness): (Outcome, set<Note>) {
    if !live.known then (Unknown, {TapUnreadable})
    else if live.sent <= 0 then (Unknown, {TapNotFed})
    else if live.sendFailed > 0 then (Unknown, {TapSendFailures})
    else (Compliant, {})
  }

  predicate OnACoveredSignal(a: Assertion, f: TapFinding) {
    f.signal.None? || a.Covers(f.signal.value)
  }

  function LiveAt(a: Assertion, records: seq<TapFinding>, level: Level): seq<TapFinding> {
    Filter((f: TapFinding) => OnACoveredSignal(a, f) && LiveLevelOf(f) == level, records)
  }

  function LiveFinding(req: string, level: Level, found: bool, reading: LiveFindings): Finding {
    var base := LiveBase(reading.liveness);
    var outcome :=
      if found then (if level == Required then Worst(base.0, Misconfigured) else base.0)
      else if reading.truncated then Worst(base.0, Unknown)
      else base.0;
    Finding(req, outcome, FacetNone, Some(GradeOf(level)), None, WaiverNone, [], base.1)
  }

  function LiveFindingsAt(req: string, a: Assertion, level: Level, reading: LiveFindings): seq<Finding> {
    var found := LiveAt(a, reading.records, level) != [];
    if !found && level != Required then [] else [LiveFinding(req, level, found, reading)]
  }

  /** A verdict no evaluation could attempt: violation-grade and unknown. */
  function SchemaUnknown(req: string, note: Note): Finding {
    Finding(req, Unknown, FacetNone, Some(Violation), None, WaiverNone, [], {note})
  }

  function JudgeLive(req: string, a: Assertion, ev: Evidence): seq<Finding> {
    if a.window !in ev.live then [SchemaUnknown(req, NoLiveReading(a.window))]
    else if !ev.live[a.window].known then [SchemaUnknown(req, LiveUnavailable)]
    else
      var reading := ev.live[a.window];
      LiveFindingsAt(req, a, Required, reading) + LiveFindingsAt(req, a, ConditionallyRequired, reading)
      + LiveFindingsAt(req, a, Recommended, reading) + LiveFindingsAt(req, a, OptIn, reading)
  }

  /** Groups the records by level in one pass, as the evaluator does. */
  method GroupRecords(a: Assertion, records: seq<TapFinding>) returns (byLevel: map<Level, seq<TapFinding>>)
    ensures forall l :: (l in byLevel <==> LiveAt(a, records, l) != []) && (l in byLevel ==> byLevel[l] == LiveAt(a, records, l))
  {
    byLevel := map[];
    for i := 0 to |records|
      invariant forall l ::
        (l in byLevel <==> LiveAt(a, records[..i], l) != []) && (l in byLevel ==> byLevel[l] == LiveAt(a, records[..i], l))
    {
      var f := records[i];
      assert records[..i + 1] == records[..i] + [f];
      forall l
        ensures LiveAt(a, records[..i + 1], l)
             == LiveAt(a, records[..i], l) + if OnACoveredSignal(a, f) && LiveLevelOf(f) == l then [f] else []
      {
        FilterAppend((f: TapFinding) => OnACoveredSignal(a, f) && LiveLevelOf(f) == l, records[..i], [f]);
      }
      if OnACoveredSignal(a, f) {
        var level := LiveLevelOf(f);
        byLevel := byLevel[level := (if level in byLevel then byLevel[level] else []) + [f]];
      }
    }
    assert records[..|records|] == records;
  }

  method JudgeLiveLoop(req: string, a: Assertion, ev: Evidence) returns (out: seq<Finding>)
    ensures out == JudgeLive(req, a, ev)
  {
    if a.window !in ev.live { return [SchemaUnknown(req, NoLiveReading(a.window))]; }
    var reading := ev.live[a.window];
    if !reading.known { return [SchemaUnknown(req, LiveUnavailable)]; }
    var byLevel := GroupRecords(a, reading.records);
    hide LiveAt;
    out := [];
    for i := 0 to |LEVELS|
      invariant out ==
        (if i > 0 then LiveFindingsAt(req, a, Required, reading) else [])
        + (if i > 1 then LiveFindingsAt(req, a, ConditionallyRequired, reading) else [])
        + (if i > 2 then LiveFindingsAt(req, a, Recommended, reading) else [])
        + (if i > 3 then LiveFindingsAt(req, a, OptIn, reading) else [])
    {
      var level := LEVELS[i];
      if level in byLevel || level == Required {
        out := out + [LiveFinding(req, level, level in byLevel, reading)];
      }
    }
  }

  predicate LiveReadable(a: Assertion, ev: Evidence) { a.window in ev.live && ev.live[a.window].known }

  /** The level a record's own name says or, under another name, its severity;
      an unstated severity is required. */
  ghost predicate LandsAt(f: TapFinding, level: Level) {
    match level
    case Required => f.id == RequiredNotPresent || (f.id == OtherTapId && (f.severity == TapViolation || f.severity == TapUnstated))
    case ConditionallyRequired => f.id == ConditionallyRequiredNotPresent
    case Recommended => f.id == RecommendedNotPresent || (f.id == OtherTapId && f.severity == TapImprovement)
    case OptIn => f.id == OptInNotPresent || (f.id == OtherTapId && f.severity == TapInformation)
  }

  /** Some record of a covered signal, or of none the vocabulary places, lands
      at the level. */
  ghost predicate LiveRecordAt(a: Assertion, ev: Evidence, level: Level) {
    && LiveReadable(a, ev)
    && exists f :: f in ev.live[a.window].records && (f.signal == None || (f.signal.Some? && f.signal.value in a.signals)) && LandsAt(f, level)
  }

  lemma LiveRecordsAre(a: Assertion, ev: Evidence, level: Level)
    requires LiveReadable(a, ev)
    ensures LiveAt(a, ev.live[a.window].records, level) != [] <==> LiveRecordAt(a, ev, level)
  {
    var at := LiveAt(a, ev.live[a.window].records, level);
    assert forall f :: LiveLevelOf(f) == level <==> LandsAt(f, level);
    hide LiveLevelOf, LandsAt;
    if at != [] { assert at[0] in at; }
    if f :| f in ev.live[a.window].records && (f.signal == None || (f.signal.Some? && f.signal.value in a.signals)) && LandsAt(f, level) {
      assert f in at;
    }
  }

  /** The tap is known to be fed, without send failures. */
  predicate TapFed(live: Liveness) { live.known && live.sent > 0 && live.sendFailed <= 0 }

  /** And unclipped. */
  predicate TapSound(a: Assertion, ev: Evidence) {
    LiveReadable(a, ev) && TapFed(ev.live[a.window].liveness) && !ev.live[a.window].truncated
  }

  /** Why a tap is not fed: nobody can read it, nothing is sent to it, or
      sending fails. */
  ghost predicate SaysWhyNotFed(live: Liveness, notes: set<Note>) {
    if !live.known then notes == {TapUnreadable}
    else if live.sent <= 0 then notes == {TapNotFed}
    else if live.sendFailed > 0 then notes == {TapSendFailures}
    else notes == {}
  }

  /** The live verdict: one scored finding, first, red exactly when a readable
      window has a covered record at required, however the tap itself is
      faring; green exactly when it has none and the tap is sound; otherwise
      unknown, never not_delivered. An unreadable window leaves it alone, saying
      which way it cannot be read. */
  lemma LiveVerdictMeaning(req: string, a: Assertion, ev: Evidence)
    ensures var fs := JudgeLive(req, a, ev);
      && |fs| > 0 && fs[0].grade == Some(Violation) && (forall i :: 0 < i < |fs| ==> fs[i].grade != Some(Violation) && fs[i].grade != None)
      && (fs[0].outcome == Misconfigured <==> LiveRecordAt(a, ev, Required))
      && (fs[0].outcome == Compliant <==> TapSound(a, ev) && !LiveRecordAt(a, ev, Required))
      && fs[0].outcome in {Misconfigured, Compliant, Unknown}
      && (!LiveReadable(a, ev) ==>
            |fs| == 1 && fs[0].notes == {if a.window in ev.live then LiveUnavailable else NoLiveReading(a.window)})
      && (LiveReadable(a, ev) ==> SaysWhyNotFed(ev.live[a.window].liveness, fs[0].notes))
  {
    if LiveReadable(a, ev) {
      LiveRecordsAre(a, ev, Required);
      hide LiveAt, LiveRecordAt;
    }
  }

  /** A finding below required: present exactly when a covered record lands at
      its level, graded by it, and no worse than unknown where the tap is not
      fed. */
  ghost predicate LiveSays(req: string, a: Assertion, ev: Evidence, level: Level, fs: seq<Finding>)
    requires LiveReadable(a, ev)
  {
    if LiveRecordAt(a, ev, level) then
      && |fs| == 1 && fs[0].requirement == req && fs[0].facet == FacetNone && fs[0].coverage == None && fs[0].missing == [] && fs[0].waived == WaiverNone
      && fs[0].grade == Some(if level == OptIn then Neutral else Advisory)
      && fs[0].outcome == (if TapFed(ev.live[a.window].liveness) then Compliant else Unknown)
      && SaysWhyNotFed(ev.live[a.window].liveness, fs[0].notes)
    else fs == []
  }

  /** After the verdict come the other levels, in order. */
  lemma LiveFindingsAre(req: string, a: Assertion, ev: Evidence)
    returns (verdict: Finding, conditional: seq<Finding>, recommended: seq<Finding>, optIn: seq<Finding>)
    requires LiveReadable(a, ev)
    ensures JudgeLive(req, a, ev) == [verdict] + conditional + recommended + optIn
    ensures verdict.requirement == req && verdict.missing == [] && verdict.coverage == None && verdict.facet == FacetNone && verdict.waived == WaiverNone
    ensures LiveSays(req, a, ev, ConditionallyRequired, conditional)
    ensures LiveSays(req, a, ev, Recommended, recommended)
    ensures LiveSays(req, a, ev, OptIn, optIn)
  {
    var reading := ev.live[a.window];
    verdict := LiveFinding(req, Required, LiveAt(a, reading.records, Required) != [], reading);
    conditional := LiveFindingsAt(req, a, ConditionallyRequired, reading);
    recommended := LiveFindingsAt(req, a, Recommended, reading);
    optIn := LiveFindingsAt(req, a, OptIn, reading);
    LiveRecordsAre(a, ev, ConditionallyRequired);
    LiveRecordsAre(a, ev, Recommended);
    LiveRecordsAre(a, ev, OptIn);
    hide LiveAt, LiveRecordAt;
  }

  // ----------------------------------------------------------------- drift arm

  function ScoredIndex(fs: seq<Finding>): (r: Option<nat>)
    ensures r.Some? ==> r.value < |fs| && fs[r.value].Scored() && forall i :: 0 <= i < r.value ==> !fs[i].Scored()
    ensures r.None? ==> forall i :: 0 <= i < |fs| ==> !fs[i].Scored()
  {
    if fs == [] then None
    else if fs[0].Scored() then Some(0)
    else
      var rest := ScoredIndex(fs[1..]);
      if rest.None? then None else Some(rest.value + 1)
  }

  function DriftFinding(was: Finding, pin: string, active: string, current: Finding): Finding {
    Finding(was.requirement, LibraryDrift, FacetRegistry, was.grade, None, WaiverNone, current.missing,
            {PassesPinFailsActive(pin, active)} + current.notes)
  }

  predicate ProvableFailure(o: Outcome) { o.Misconfigured? || o.NotDelivered? }

  function DriftArm(req: string, a: Assertion, pinned: seq<Finding>, ev: Evidence): seq<Finding> {
    var active, verdict := ev.ActiveRegistry(), ScoredIndex(pinned);
    if a.tracking || active.None? || ev.activeVersion == a.version then pinned
    else if verdict.None? || !pinned[verdict.value].outcome.Compliant? then pinned
    else
      var judged := JudgeAgainst(req, a, active.value, ev);
      var current := ScoredIndex(judged);
      if current.None? || !ProvableFailure(judged[current.value].outcome) then pinned
      else pinned[verdict.value := DriftFinding(pinned[verdict.value], a.version, ev.activeVersion, judged[current.value])]
  }

  /** Rewrites the verdict in place. */
  method DriftArmInPlace(req: string, a: Assertion, pinned: array<Finding>, ev: Evidence)
    modifies pinned
    ensures pinned[..] == DriftArm(req, a, old(pinned[..]), ev)
  {
    if a.tracking { return; }
    var active := ev.ActiveRegistry();
    if active.None? || ev.activeVersion == a.version { return; }
    var verdict := ScoredIndex(pinned[..]);
    if verdict.None? || !pinned[verdict.value].outcome.Compliant? { return; }
    var judged := JudgeAgainstLoop(req, a, active.value, ev);
    var current := ScoredIndex(judged);
    if current.None? || !ProvableFailure(judged[current.value].outcome) { return; }
    pinned[verdict.value] := DriftFinding(pinned[verdict.value], a.version, ev.activeVersion, judged[current.value]);
  }

  function JudgeSchema(req: Requirement, ev: Evidence): seq<Finding>
    requires req.schema.Some?
  {
    var a := req.schema.value;
    if req.placement == Live then JudgeLive(req.id, a, ev)
    else
      var reg := ev.RegistryFor(a);
      if reg.None? then [SchemaUnknown(req.id, NoRegistry(a.RegistryKey()))]
      else DriftArm(req.id, a, JudgeAgainst(req.id, a, reg.value, ev), ev)
  }

  method JudgeSchemaLoop(req: Requirement, ev: Evidence) returns (out: seq<Finding>)
    requires req.schema.Some?
    ensures out == JudgeSchema(req, ev)
  {
    var a := req.schema.value;
    if req.placement == Live {
      out := JudgeLiveLoop(req.id, a, ev);
      return;
    }
    var reg := ev.RegistryFor(a);
    if reg.None? { return [SchemaUnknown(req.id, NoRegistry(a.RegistryKey()))]; }
    var pinned := JudgeAgainstLoop(req.id, a, reg.value, ev);
    var slots := new Finding[|pinned|](i requires 0 <= i < |pinned| => pinned[i]);
    assert slots[..] == pinned;
    DriftArmInPlace(req.id, a, slots, ev);
    out := slots[..];
  }

  /** Passing the pin while provably failing the active version, where there is
      one that is not the pin. */
  ghost predicate Drifts(req: string, a: Assertion, reg: Registry, ev: Evidence) {
    && !a.tracking
    && ev.activeVersion != "" && ev.activeVersion in ev.versions && ev.activeVersion != a.version
    && Verdict(req, a, reg, ev).outcome == Compliant
    && Verdict(req, a, ev.versions[ev.activeVersion], ev).outcome in {Misconfigured, NotDelivered}
  }

  lemma VerdictIsFirst(req: string, a: Assertion, reg: Registry, ev: Evidence)
    ensures var fs := JudgeAgainst(req, a, reg, ev); |fs| > 0 && fs[0] == Verdict(req, a, reg, ev) && ScoredIndex(fs) == Some(0)
  {
    OneScoredFinding(req, a, reg, ev);
    hide JudgeAgainst, Verdict;
  }

  lemma JudgeSchemaIs(req: Requirement, ev: Evidence)
    requires req.schema.Some? && req.placement != Live && ev.RegistryFor(req.schema.value).Some?
    ensures var a, reg := req.schema.value, ev.RegistryFor(req.schema.value).value;
      var pinned := JudgeAgainst(req.id, a, reg, ev);
      && |pinned| > 0 && pinned[0] == Verdict(req.id, a, reg, ev)
      && JudgeSchema(req, ev) ==
           if Drifts(req.id, a, reg, ev)
           then pinned[0 := DriftFinding(pinned[0], a.version, ev.activeVersion, Verdict(req.id, a, ev.ActiveRegistry().value, ev))]
           else pinned
  {
    var a, reg := req.schema.value, ev.RegistryFor(req.schema.value).value;
    VerdictIsFirst(req.id, a, reg, ev);
    if ev.ActiveRegistry().Some? { VerdictIsFirst(req.id, a, ev.ActiveRegistry().value, ev); }
    hide JudgeAgainst, Verdict, DriftFinding, ScoredIndex;
  }

  /** Drift is exactly that, it rewrites exactly the verdict, and everything
      else about the judgement is untouched: the number of findings, their
      grades, and that one of them is scored. */
  lemma DriftIsExactly(req: Requirement, ev: Evidence)
    requires req.schema.Some? && req.placement != Live && ev.RegistryFor(req.schema.value).Some?
    ensures var a, reg := req.schema.value, ev.RegistryFor(req.schema.value).value;
      var pinned, fs := JudgeAgainst(req.id, a, reg, ev), JudgeSchema(req, ev);
      && |fs| == |pinned| && |fs| > 0 && |pinned| > 0
      && (fs[0].outcome == LibraryDrift <==> Drifts(req.id, a, reg, ev))
      && (!Drifts(req.id, a, reg, ev) ==> fs == pinned)
      && fs[1..] == pinned[1..]
      && (forall i :: 0 <= i < |fs| ==> fs[i].grade == pinned[i].grade)
      && fs[0].Scored() && (forall i :: 0 < i < |fs| ==> !fs[i].Scored() && fs[i].outcome != LibraryDrift)
  {
    var a, reg := req.schema.value, ev.RegistryFor(req.schema.value).value;
    JudgeSchemaIs(req, ev);
    OneScoredFinding(req.id, a, reg, ev);
    NoDriftInJudgement(req.id, a, reg, ev);
    var pinned, fs := JudgeAgainst(req.id, a, reg, ev), JudgeSchema(req, ev);
    var drifts := Drifts(req.id, a, reg, ev);
    hide JudgeAgainst, Verdict, JudgeSchema, Drifts;
    assert forall i :: 0 <= i < |pinned| ==> pinned[i] in pinned;
    var f := if drifts then DriftFinding(pinned[0], a.version, ev.activeVersion, Verdict(req.id, a, ev.ActiveRegistry().value, ev)) else pinned[0];
    hide DriftFinding;
    VerdictSlot(pinned, f, fs, drifts);
  }

  /** The drifted finding names both versions and carries what the active one's
      verdict is missing and could not use. */
  lemma DriftedFinding(req: Requirement, ev: Evidence)
    requires req.schema.Some? && req.placement != Live && ev.RegistryFor(req.schema.value).Some?
    requires Drifts(req.id, req.schema.value, ev.RegistryFor(req.schema.value).value, ev)
    ensures var a := req.schema.value;
      var current := Verdict(req.id, a, ev.versions[ev.activeVersion], ev);
      && |JudgeSchema(req, ev)| > 0
      && JudgeSchema(req, ev)[0] == Finding(req.id, LibraryDrift, FacetRegistry, Some(Violation), None, WaiverNone, current.missing,
                                            current.notes + {PassesPinFailsActive(a.version, ev.activeVersion)})
  {
    hide JudgeSchema, JudgeAgainst, OutcomeAt, AtLevel, SharedReading, DemandsInPlay, ReadEnums, ScopedGroups, Missing;
    JudgeSchemaIs(req, ev);
  }

  /** What putting another finding of its grade in the verdict's place leaves. */
  lemma VerdictSlot(pinned: seq<Finding>, f: Finding, fs: seq<Finding>, drifts: bool)
    requires |pinned| > 0 && f.grade == pinned[0].grade && pinned[0].Scored()
    requires drifts ==> f.outcome == LibraryDrift
    requires forall i :: 0 <= i < |pinned| ==> pinned[i].outcome != LibraryDrift
    requires forall i :: 0 < i < |pinned| ==> !pinned[i].Scored()
    requires fs == if drifts then pinned[0 := f] else pinned
    ensures |fs| == |pinned| && (fs[0].outcome == LibraryDrift <==> drifts)
    ensures fs[1..] == pinned[1..]
    ensures forall i :: 0 <= i < |fs| ==> fs[i].grade == pinned[i].grade
    ensures fs[0].Scored() && forall i :: 0 < i < |fs| ==> !fs[i].Scored() && fs[i].outcome != LibraryDrift
  {
  }

  /** The judgement against one version never names drift itself. */
  lemma NoDriftInJudgement(req: string, a: Assertion, reg: Registry, ev: Evidence)
    ensures forall f :: f in JudgeAgainst(req, a, reg, ev) ==> f.outcome in {Compliant, Unknown, Misconfigured, NotDelivered}
  {
    var demands, shared := DemandsInPlay(a, reg, ev), SharedReading(a, ScopedGroups(reg, a.scope), ev);
    var enums := ReadEnums(a, demands, ev);
    FourLevels(req, demands, shared, enums);
    ReadingOutcomes(a, ScopedGroups(reg, a.scope), ev);
    hide FindingsFrom, SharedReading, DemandsInPlay, ReadEnums, FindingsAt, ScopedGroups;
    forall l, f | f in FindingsAt(req, l, demands, shared, enums)
      ensures f.outcome in {Compliant, Unknown, Misconfigured, NotDelivered}
    {
      NoDriftAtLevel(req, l, demands, shared, enums, f);
    }
  }

  lemma NoDriftAtLevel(req: string, l: Level, demands: seq<Demand>, shared: ScopeReading, enums: map<string, EnumVerdict>, f: Finding)
    requires shared.outcome in {Compliant, Unknown, NotDelivered}
    requires f in FindingsAt(req, l, demands, shared, enums)
    ensures f.outcome in {Compliant, Unknown, Misconfigured, NotDelivered}
  {
  }

  /** Which judgement a schema requirement gets: the live one, none for want of
      the registry it names, or the landed one against the version pinned or,
      tracking, the head. */
  lemma WhichJudgement(req: Requirement, ev: Evidence)
    requires req.schema.Some?
    ensures var a := req.schema.value;
      var key := if a.tracking then "head" else a.version;
      if req.placement == Live then JudgeSchema(req, ev) == JudgeLive(req.id, a, ev)
      else if key !in ev.versions then
        JudgeSchema(req, ev) == [Finding(req.id, Unknown, FacetNone, Some(Violation), None, WaiverNone, [], {NoRegistry(key)})]
      else
        && ev.RegistryFor(a) == Some(ev.versions[key])
        && (a.tracking ==> JudgeSchema(req, ev) == JudgeAgainst(req.id, a, ev.versions[key], ev))
  {
    hide JudgeLive, JudgeAgainst;
  }

  /** Two versions that ask the same of the scope never drift, whatever else
      moved between them. */
  lemma SameAskNeverDrifts(req: string, a: Assertion, reg: Registry, ev: Evidence)
    requires ev.ActiveRegistry().Some? && OneDefinition(reg) && OneDefinition(ev.ActiveRegistry().value)
    requires AsksAtLeast(reg, a, ev.ActiveRegistry().value, a) && AsksAtLeast(ev.ActiveRegistry().value, a, reg, a)
    ensures !Drifts(req, a, reg, ev)
  {
    SameAskSameVerdict(req, a, reg, a, ev.ActiveRegistry().value, ev);
    hide AsksAtLeast, OneDefinition, Verdict;
  }
}
