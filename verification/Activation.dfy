/** The designation record: which version of each substrate is active, and the
    append-only history that made it so
    (internal/activation/activation.go). */
module Activation {
  import opened Base

  datatype Kind = Catalogue | SchemaRegistry | Unlisted(name: string) {
    predicate Valid() { !Unlisted? }
  }

  /** An instant, in nanoseconds since the zero time, and whether it is
      carried in UTC. */
  datatype Time = Time(nanos: int, utc: bool) {
    predicate IsZero() { nanos == 0 }
  }

  const SECOND := 1_000_000_000

  /** `at.UTC().Truncate(time.Second)`: rounded down. */
  function Canonical(t: Time): Time {
    Time(t.nanos - t.nanos % SECOND, true)
  }

  datatype Impact = Impact(summary: string, lines: seq<string>)

  datatype Act = Act(version: string, previous: string, at: Time, owner: string, impact: Impact)

  datatype Designation = Designation(active: string, acts: seq<Act>)

  datatype Record = Record(catalogue: Option<Designation>, registry: Option<Designation>)

  const EMPTY := Record(None, None)

  function For(r: Record, kind: Kind): Option<Designation> {
    match kind
    case Catalogue => r.catalogue
    case SchemaRegistry => r.registry
    case Unlisted(_) => None
  }

  function Put(r: Record, kind: Kind, d: Designation): Record {
    match kind
    case Catalogue => r.(catalogue := Some(d))
    case SchemaRegistry => r.(registry := Some(d))
    case Unlisted(_) => r
  }

  /** The active version, or the empty string where none is designated. */
  function Active(r: Record, kind: Kind): string {
    match For(r, kind)
    case None => ""
    case Some(d) => d.active
  }

  // ---- validation --------------------------------------------------------

  datatype Problem =
    | NoActive | NoActivation | NoVersion(at: nat) | AlreadyActive(at: nat)
    | WrongPrevious(at: nat, said: string, was: string)
    | NoTime(at: nat) | NoOwner(at: nat) | NoReport(at: nat)
    | NotLatest(active: string, latest: string)

  /** The version in force after some acts: the last one that names any. */
  function InForce(acts: seq<Act>): string {
    if acts == [] then ""
    else if acts[|acts| - 1].version != "" then acts[|acts| - 1].version
    else InForce(acts[..|acts| - 1])
  }

  /** What is wrong with the version an act names, or the one it says it
      replaced. */
  function ChainProblems(i: nat, previous: string, a: Act): seq<Problem> {
    (if a.version == "" then [NoVersion(i)] else if a.version == previous then [AlreadyActive(i)] else [])
    + (if a.previous != previous then [WrongPrevious(i, a.previous, previous)] else [])
  }

  /** What an audit record must say and this one does not. */
  function AuditProblems(i: nat, a: Act): seq<Problem> {
    (if a.at.IsZero() then [NoTime(i)] else [])
    + (if a.owner == "" then [NoOwner(i)] else [])
    + (if a.impact.summary == "" then [NoReport(i)] else [])
  }

  function ActProblems(i: nat, previous: string, a: Act): seq<Problem> {
    ChainProblems(i, previous, a) + AuditProblems(i, a)
  }

  function HistoryProblems(acts: seq<Act>): seq<Problem> {
    if acts == [] then []
    else
      var n := |acts| - 1;
      HistoryProblems(acts[..n]) + ActProblems(n, InForce(acts[..n]), acts[n])
  }

  function Problems(d: Designation): seq<Problem> {
    (if d.active == "" then [NoActive] else [])
    + if d.acts == [] then [NoActivation]
      else
        var latest := d.acts[|d.acts| - 1].version;
        HistoryProblems(d.acts) + if latest != d.active && d.active != "" then [NotLatest(d.active, latest)] else []
  }

  lemma {:induction false} InForceAppears(acts: seq<Act>)
    ensures InForce(acts) != "" ==> Names(acts, InForce(acts))
  {
    if acts != [] {
      var n := |acts| - 1;
      assert acts[n] in acts;
      if acts[n].version == "" { InForceAppears(acts[..n]); }
    }
  }

  method ChainProblemsSteps(i: nat, previous: string, repeated: bool, a: Act, before: seq<Problem>) returns (p: seq<Problem>)
    requires a.version != "" && a.version == previous ==> repeated
    ensures p == before + ChainProblems(i, previous, a)
  {
    p := before;
    if a.version == "" {
      p := p + [NoVersion(i)];
    } else if repeated && previous == a.version {
      p := p + [AlreadyActive(i)];
    }
    if a.previous != previous { p := p + [WrongPrevious(i, a.previous, previous)]; }
  }

  method AuditProblemsSteps(i: nat, a: Act, before: seq<Problem>) returns (p: seq<Problem>)
    ensures p == before + AuditProblems(i, a)
  {
    p := before;
    if a.at.IsZero() { p := p + [NoTime(i)]; }
    if a.owner == "" { p := p + [NoOwner(i)]; }
    if a.impact.summary == "" { p := p + [NoReport(i)]; }
  }

  ghost predicate Names(acts: seq<Act>, version: string) {
    exists a :: a in acts && a.version == version
  }

  lemma NamesOneMore(acts: seq<Act>, a: Act, version: string)
    ensures Names(acts + [a], version) <==> Names(acts, version) || a.version == version
  {
  }

  /** The loop over the history, with the versions seen so far and the one in
      force carried through it. */
  method HistoryProblemsLoop(acts: seq<Act>) returns (p: seq<Problem>)
    ensures p == HistoryProblems(acts)
  {
    hide ChainProblems, AuditProblems, Names;
    var seen: set<string>, previous := {}, "";
    p := [];
    assert InForce([]) == "";
    assert forall v :: !Names([], v) by { NothingNamed(); }
    for i := 0 to |acts|
      invariant p == HistoryProblems(acts[..i])
      invariant previous == InForce(acts[..i])
      invariant forall v :: v in seen <==> Names(acts[..i], v)
    {
      var a := acts[i];
      assert acts[..i + 1] == acts[..i] + [a];
      assert acts[..i + 1][..i] == acts[..i];
      InForceAppears(acts[..i]);
      forall v { NamesOneMore(acts[..i], a, v); }
      ghost var before := p;
      p := ChainProblemsSteps(i, previous, a.version in seen, a, p);
      p := AuditProblemsSteps(i, a, p);
      assert p == before + (ChainProblems(i, previous, a) + AuditProblems(i, a));
      seen := seen + {a.version};
      if a.version != "" { previous := a.version; }
    }
    assert acts[..|acts|] == acts;
  }

  lemma NothingNamed()
    ensures forall v :: !Names([], v)
  {
  }

  method ProblemsLoop(d: Designation) returns (p: seq<Problem>)
    ensures p == Problems(d)
  {
    hide HistoryProblems;
    p := [];
    if d.active == "" { p := p + [NoActive]; }
    if d.acts == [] { return p + [NoActivation]; }
    var history := HistoryProblemsLoop(d.acts);
    p := p + history;
    var latest := d.acts[|d.acts| - 1];
    if latest.version != d.active && d.active != "" { p := p + [NotLatest(d.active, latest.version)]; }
  }

  method SectionIsValid(d: Option<Designation>) returns (valid: bool)
    ensures valid == ValidSection(d)
  {
    hide Problems;
    if d.None? { return true; }
    var p := ProblemsLoop(d.value);
    return p == [];
  }

  predicate ValidSection(d: Option<Designation>) {
    d.None? || Problems(d.value) == []
  }

  predicate Valid(r: Record) {
    ValidSection(r.catalogue) && ValidSection(r.registry)
  }

  // ---- the transition functions ------------------------------------------

  datatype Refusal =
    | NotASubstrate | NothingToActivate | NobodyDeciding | StaleReport | WrongSubstrate | AlreadyInForce | Invalid

  method Designate(rec: Record, kind: Kind, version: string, impact: Impact, owner: string, at: Time)
    returns (out: Result<Record, Refusal>)
    ensures out == Designated(rec, kind, version, impact, owner, at)
  {
    hide ValidSection, Canonical;
    if !kind.Valid() { return Err(NotASubstrate); }
    if version == "" { return Err(NothingToActivate); }
    if owner == "" { return Err(NobodyDeciding); }
    var current := Active(rec, kind);
    var d := Designation("", []);
    var existing := For(rec, kind);
    if existing.Some? { d := d.(acts := existing.value.acts); }
    d := d.(active := version);
    d := d.(acts := d.acts + [Act(version, current, Canonical(at), owner, impact)]);
    var next := Put(rec, kind, d);
    var catalogue := SectionIsValid(next.catalogue);
    var registry := SectionIsValid(next.registry);
    if !catalogue || !registry { return Err(Invalid); }
    return Ok(next);
  }

  /** The designation one more activation leaves. */
  function Extended(rec: Record, kind: Kind, version: string, impact: Impact, owner: string, at: Time): Designation {
    var acts := if For(rec, kind).Some? then For(rec, kind).value.acts else [];
    Designation(version, acts + [Act(version, Active(rec, kind), Canonical(at), owner, impact)])
  }

  function Designated(rec: Record, kind: Kind, version: string, impact: Impact, owner: string, at: Time): Result<Record, Refusal> {
    if !kind.Valid() then Err(NotASubstrate)
    else if version == "" then Err(NothingToActivate)
    else if owner == "" then Err(NobodyDeciding)
    else
      var next := Put(rec, kind, Extended(rec, kind, version, impact, owner, at));
      if Valid(next) then Ok(next) else Err(Invalid)
  }

  /** The report a decision is taken on: a change between two versions. */
  datatype Report = Report(kind: Kind, from: string, to: string, impact: Impact)

  function Applied(rec: Record, kind: Kind, rep: Report, owner: string, at: Time): Result<Record, Refusal> {
    if !kind.Valid() then Err(NotASubstrate)
    else if rep.kind != kind then Err(WrongSubstrate)
    else if rep.to == "" then Err(NothingToActivate)
    else if owner == "" then Err(NobodyDeciding)
    else if rep.from != Active(rec, kind) then Err(StaleReport)
    else if rep.to == Active(rec, kind) then Err(AlreadyInForce)
    else Designated(rec, kind, rep.to, rep.impact, owner, at)
  }

  // ---- exactly when an activation is recorded ----------------------------

  /** The section an activation extends: absent, valid, or an empty one that
      names nothing. */
  predicate Extensible(d: Option<Designation>) {
    d.None? || Problems(d.value) == [] || d.value == Designation("", [])
  }

  function Other(r: Record, kind: Kind): Option<Designation> {
    match kind
    case Catalogue => r.registry
    case SchemaRegistry => r.catalogue
    case Unlisted(_) => None
  }

  lemma {:induction false} SoundHistory(acts: seq<Act>)
    ensures HistoryProblems(acts) == [] && acts != [] ==> InForce(acts) == acts[|acts| - 1].version != ""
  {
  }

  lemma OneMoreAct(acts: seq<Act>, a: Act)
    ensures HistoryProblems(acts + [a]) == [] <==>
      && HistoryProblems(acts) == []
      && a.version != "" && a.version != InForce(acts) && a.previous == InForce(acts)
      && !a.at.IsZero() && a.owner != "" && a.impact.summary != ""
  {
  }

  lemma ValidAfter(d: Option<Designation>, version: string, impact: Impact, owner: string, at: Time)
    requires version != "" && owner != ""
    ensures var held := if d.Some? then d.value else Designation("", []);
            var next := Designation(version, held.acts + [Act(version, held.active, Canonical(at), owner, impact)]);
            Problems(next) == [] <==>
              Extensible(d) && version != held.active && impact.summary != "" && !Canonical(at).IsZero()
  {
    hide Canonical, Problems, HistoryProblems;
    var held := if d.Some? then d.value else Designation("", []);
    var a := Act(version, held.active, Canonical(at), owner, impact);
    var next := Designation(version, held.acts + [a]);
    NoHistory();
    OneMoreAct(held.acts, a);
    SoundHistory(held.acts);
    ProblemsAre(held);
    ProblemsAre(next);
    assert InForce([]) == "";
  }

  lemma ProblemsAre(d: Designation)
    ensures Problems(d) == [] <==>
      d.active != "" && d.acts != [] && HistoryProblems(d.acts) == [] && d.acts[|d.acts| - 1].version == d.active
  {
  }

  lemma NoHistory()
    ensures HistoryProblems([]) == []
  {
  }

  /** Whatever the record holds, an activation is recorded exactly when it
      names a listed substrate, a version other than the active one, an owner,
      a report and a time after the zero second, over a section that can be
      extended, beside a valid one. */
  lemma DesignatesExactly(rec: Record, kind: Kind, version: string, impact: Impact, owner: string, at: Time)
    ensures Designated(rec, kind, version, impact, owner, at).Ok? <==>
      && kind.Valid()
      && version != "" && version != Active(rec, kind)
      && owner != "" && impact.summary != "" && !Canonical(at).IsZero()
      && Extensible(For(rec, kind)) && ValidSection(Other(rec, kind))
  {
    hide Problems, Canonical;
    if kind.Valid() && version != "" && owner != "" {
      ValidAfter(For(rec, kind), version, impact, owner, at);
    }
  }

  /** What an activation leaves: one more act, its version active, the other
      substrate as it was, and the record valid. */
  lemma DesignationExtends(rec: Record, kind: Kind, version: string, impact: Impact, owner: string, at: Time)
    requires Designated(rec, kind, version, impact, owner, at).Ok?
    ensures var next := Designated(rec, kind, version, impact, owner, at).value;
            && Valid(next)
            && For(next, kind) == Some(Extended(rec, kind, version, impact, owner, at))
            && Active(next, kind) == version
            && Other(next, kind) == Other(rec, kind)
  {
  }

  /** A report is applied to a valid record exactly when it is about this
      substrate, starts from the active version and goes somewhere else. */
  lemma AppliesExactly(rec: Record, kind: Kind, rep: Report, owner: string, at: Time)
    requires Valid(rec)
    ensures Applied(rec, kind, rep, owner, at).Ok? <==>
      && kind.Valid() && rep.kind == kind
      && rep.from == Active(rec, kind) && rep.to != Active(rec, kind) && rep.to != ""
      && owner != "" && rep.impact.summary != "" && !Canonical(at).IsZero()
    ensures Applied(rec, kind, rep, owner, at).Ok? ==>
      Applied(rec, kind, rep, owner, at) == Designated(rec, kind, rep.to, rep.impact, owner, at)
  {
    hide Problems, Designated;
    DesignatesExactly(rec, kind, rep.to, rep.impact, owner, at);
  }

  // ---- over the record's own fields ----------------------------------------

  /** The section of a listed substrate. */
  ghost function Section(r: Record, kind: Kind): Option<Designation> {
    match kind
    case Catalogue => r.catalogue
    case SchemaRegistry => r.registry
    case Unlisted(_) => None
  }

  /** The act names a version other than the one before it, says which that
      was, when, who and on what report. */
  ghost predicate SoundAct(acts: seq<Act>, i: nat)
    requires i < |acts|
  {
    && acts[i].version != "" && acts[i].previous == (if i == 0 then "" else acts[i - 1].version)
    && acts[i].version != acts[i].previous
    && acts[i].at.nanos != 0 && acts[i].owner != "" && acts[i].impact.summary != ""
  }

  ghost predicate SoundActs(acts: seq<Act>) {
    forall i :: 0 <= i < |acts| ==> SoundAct(acts, i)
  }

  /** Every act is sound, and the last one's version is the active one. */
  ghost predicate Sound(d: Designation) {
    d.active != "" && d.acts != [] && d.acts[|d.acts| - 1].version == d.active && SoundActs(d.acts)
  }

  lemma {:induction false} HistoryIsSound(acts: seq<Act>)
    ensures HistoryProblems(acts) == [] <==> SoundActs(acts)
  {
    if acts == [] {
      NoHistory();
    } else {
      var n := |acts| - 1;
      var before, a := acts[..n], acts[n];
      assert acts == before + [a];
      HistoryIsSound(before);
      OneMoreAct(before, a);
      SoundHistory(before);
      assert before == [] ==> InForce(before) == "";
      hide HistoryProblems, InForce;
      forall i | 0 <= i < n ensures SoundAct(before, i) <==> SoundAct(acts, i) {
        assert before[i] == acts[i];
        assert i > 0 ==> before[i - 1] == acts[i - 1];
      }
      if SoundActs(acts) { assert SoundAct(acts, n); }
      assert before != [] ==> before[|before| - 1] == acts[n - 1];
    }
  }

  /** A designation has no problem exactly when it is sound. */
  lemma ProblemFreeIsSound(d: Designation)
    ensures Problems(d) == [] <==> Sound(d)
  {
    ProblemsAre(d);
    HistoryIsSound(d.acts);
    hide Problems, HistoryProblems;
  }

  /** The stored time: the last whole second not after it, in UTC. */
  lemma CanonicalIs(t: Time) returns (k: int)
    ensures Canonical(t) == Time(k * 1_000_000_000, true)
    ensures k * 1_000_000_000 <= t.nanos < (k + 1) * 1_000_000_000
  {
    k := t.nanos / 1_000_000_000;
    assert t.nanos == k * 1_000_000_000 + t.nanos % 1_000_000_000;
  }

  /** The version in force, or none. */
  ghost function Current(r: Record, kind: Kind): string {
    match Section(r, kind)
    case None => ""
    case Some(d) => d.active
  }

  /** The two substrates' sections other than this one's, which is all that
      must be sound beside it. */
  ghost predicate OtherIsSound(r: Record, kind: Kind) {
    match kind
    case Catalogue => r.registry.Some? ==> Sound(r.registry.value)
    case SchemaRegistry => r.catalogue.Some? ==> Sound(r.catalogue.value)
    case Unlisted(_) => true
  }

  /** An activation of a listed substrate, over the record's fields: refused for
      the first thing it lacks, recorded exactly when what it leaves is sound,
      and then one act longer with the other section as it was. */
  lemma DesignatedExactly(rec: Record, kind: Kind, version: string, impact: Impact, owner: string, at: Time)
    ensures var out := Designated(rec, kind, version, impact, owner, at);
      if kind.Unlisted? then out == Err(NotASubstrate)
      else if version == "" then out == Err(NothingToActivate)
      else if owner == "" then out == Err(NobodyDeciding)
      else if
        && version != Current(rec, kind) && impact.summary != "" && !(0 <= at.nanos < 1_000_000_000)
        && (Section(rec, kind).Some? ==> Sound(Section(rec, kind).value) || Section(rec, kind).value == Designation("", []))
        && OtherIsSound(rec, kind)
      then
        && out.Ok?
        && Section(out.value, kind) == Some(Designation(version,
             (if Section(rec, kind).Some? then Section(rec, kind).value.acts else [])
               + [Act(version, Current(rec, kind), Canonical(at), owner, impact)]))
        && (kind == Catalogue ==> out.value.registry == rec.registry)
        && (kind == SchemaRegistry ==> out.value.catalogue == rec.catalogue)
      else out == Err(Invalid)
  {
    DesignatesExactly(rec, kind, version, impact, owner, at);
    if Section(rec, kind).Some? { ProblemFreeIsSound(Section(rec, kind).value); }
    if rec.catalogue.Some? { ProblemFreeIsSound(rec.catalogue.value); }
    if rec.registry.Some? { ProblemFreeIsSound(rec.registry.value); }
    assert Canonical(at).nanos != 0 <==> !(0 <= at.nanos < 1_000_000_000);
    hide Problems, Sound, Canonical;
  }

  /** A report's own consistency is asked for first, in this order. */
  lemma AppliedExactly(rec: Record, kind: Kind, rep: Report, owner: string, at: Time)
    ensures var out := Applied(rec, kind, rep, owner, at);
      if kind.Unlisted? then out == Err(NotASubstrate)
      else if rep.kind != kind then out == Err(WrongSubstrate)
      else if rep.to == "" then out == Err(NothingToActivate)
      else if owner == "" then out == Err(NobodyDeciding)
      else if rep.from != Current(rec, kind) then out == Err(StaleReport)
      else if rep.to == Current(rec, kind) then out == Err(AlreadyInForce)
      else out == Designated(rec, kind, rep.to, rep.impact, owner, at)
  {
    hide Designated;
  }

  /** The version in force before the `i`th act: the last one any act before it
      names. */
  ghost predicate InForceAt(acts: seq<Act>, i: nat, version: string)
    requires i <= |acts|
  {
    if forall j :: 0 <= j < i ==> acts[j].version == "" then version == ""
    else version != "" && exists j :: 0 <= j < i && acts[j].version == version && forall k :: j < k < i ==> acts[k].version == ""
  }

  lemma {:induction false} InForceIs(acts: seq<Act>, i: nat)
    requires i <= |acts|
    ensures InForceAt(acts, i, InForce(acts[..i]))
  {
    if i > 0 {
      InForceIs(acts, i - 1);
      assert acts[..i][..i - 1] == acts[..i - 1] && acts[..i][i - 1] == acts[i - 1];
      var v := InForce(acts[..i - 1]);
      if acts[i - 1].version != "" {
        assert InForce(acts[..i]) == acts[i - 1].version;
      } else if v != "" {
        var j :| 0 <= j < i - 1 && acts[j].version == v && forall k :: j < k < i - 1 ==> acts[k].version == "";
        assert forall k :: j < k < i ==> acts[k].version == "";
      }
    }
  }

  lemma OneInForce(acts: seq<Act>, i: nat, v: string, w: string)
    requires i <= |acts| && InForceAt(acts, i, v) && InForceAt(acts, i, w)
    ensures v == w
  {
  }

  /** When each problem is reported of a designation. */
  ghost predicate Stands(d: Designation, p: Problem) {
    match p
    case NoActive => d.active == ""
    case NoActivation => d.acts == []
    case NoVersion(i) => i < |d.acts| && d.acts[i].version == ""
    case AlreadyActive(i) => i < |d.acts| && d.acts[i].version != "" && InForceAt(d.acts, i, d.acts[i].version)
    case WrongPrevious(i, said, was) => i < |d.acts| && d.acts[i].previous == said && said != was && InForceAt(d.acts, i, was)
    case NoTime(i) => i < |d.acts| && d.acts[i].at.nanos == 0
    case NoOwner(i) => i < |d.acts| && d.acts[i].owner == ""
    case NoReport(i) => i < |d.acts| && d.acts[i].impact.summary == ""
    case NotLatest(active, latest) =>
      d.acts != [] && active == d.active && latest == d.acts[|d.acts| - 1].version && active != "" && active != latest
  }

  ghost function About(p: Problem): int {
    match p
    case NoVersion(i) => i
    case AlreadyActive(i) => i
    case WrongPrevious(i, _, _) => i
    case NoTime(i) => i
    case NoOwner(i) => i
    case NoReport(i) => i
    case _ => -1
  }

  lemma ChainProblemsStand(d: Designation, i: nat, p: Problem)
    requires i < |d.acts|
    ensures p in ChainProblems(i, InForce(d.acts[..i]), d.acts[i]) <==>
      About(p) == i && (p.NoVersion? || p.AlreadyActive? || p.WrongPrevious?) && Stands(d, p)
  {
    var was := InForce(d.acts[..i]);
    InForceIs(d.acts, i);
    forall v | InForceAt(d.acts, i, v) ensures v == was { OneInForce(d.acts, i, v, was); }
    hide InForce, InForceAt;
  }

  lemma AuditProblemsStand(d: Designation, i: nat, p: Problem)
    requires i < |d.acts|
    ensures p in AuditProblems(i, d.acts[i]) <==> About(p) == i && (p.NoTime? || p.NoOwner? || p.NoReport?) && Stands(d, p)
  {
    hide InForceAt;
  }

  lemma ActProblemsStand(d: Designation, i: nat, p: Problem)
    requires i < |d.acts|
    ensures p in ActProblems(i, InForce(d.acts[..i]), d.acts[i]) <==> About(p) == i && Stands(d, p)
  {
    ChainProblemsStand(d, i, p);
    AuditProblemsStand(d, i, p);
    hide Stands, ChainProblems, AuditProblems, InForce;
  }

  lemma HistoryGrows(acts: seq<Act>, n: nat)
    requires n < |acts|
    ensures HistoryProblems(acts[..n + 1]) == HistoryProblems(acts[..n]) + ActProblems(n, InForce(acts[..n]), acts[n])
  {
    hide ActProblems, InForce;
    assert acts[..n + 1][..n] == acts[..n];
  }

  lemma {:induction false} HistoryProblemsStand(d: Designation, n: nat, p: Problem)
    requires n <= |d.acts|
    ensures p in HistoryProblems(d.acts[..n]) <==> 0 <= About(p) < n && Stands(d, p)
  {
    hide Stands, ActProblems, InForce, HistoryProblems, About;
    if n == 0 {
      NoHistory();
      assert d.acts[..0] == [];
    } else {
      HistoryProblemsStand(d, n - 1, p);
      HistoryGrows(d.acts, n - 1);
      ActProblemsStand(d, n - 1, p);
    }
  }

  lemma ChainProblemsOnce(i: nat, previous: string, a: Act)
    ensures Distinct(ChainProblems(i, previous, a))
    ensures forall p :: p in ChainProblems(i, previous, a) ==> About(p) == i && (p.NoVersion? || p.AlreadyActive? || p.WrongPrevious?)
  {
  }

  lemma AuditProblemsOnce(i: nat, a: Act)
    ensures Distinct(AuditProblems(i, a))
    ensures forall p :: p in AuditProblems(i, a) ==> About(p) == i && (p.NoTime? || p.NoOwner? || p.NoReport?)
  {
    hide Time.IsZero;
  }

  lemma ActProblemsOnce(i: nat, previous: string, a: Act)
    ensures Distinct(ActProblems(i, previous, a))
    ensures forall p :: p in ActProblems(i, previous, a) ==> About(p) == i
  {
    ChainProblemsOnce(i, previous, a);
    AuditProblemsOnce(i, a);
    hide ChainProblems, AuditProblems, About;
    var chain, audit := ChainProblems(i, previous, a), AuditProblems(i, a);
    forall k, l | 0 <= k < |chain| && 0 <= l < |audit| ensures chain[k] != audit[l] {
      assert chain[k] in chain && audit[l] in audit;
    }
  }

  lemma {:induction false} HistoryProblemsOnce(acts: seq<Act>)
    ensures Distinct(HistoryProblems(acts))
    ensures forall p :: p in HistoryProblems(acts) ==> 0 <= About(p) < |acts|
  {
    hide ActProblems, InForce;
    if acts == [] {
      NoHistory();
    } else {
      var n := |acts| - 1;
      HistoryProblemsOnce(acts[..n]);
      ActProblemsOnce(n, InForce(acts[..n]), acts[n]);
      var before, here := HistoryProblems(acts[..n]), ActProblems(n, InForce(acts[..n]), acts[n]);
      forall i, j | 0 <= i < |before| && 0 <= j < |here| ensures before[i] != here[j] {
        assert before[i] in before && here[j] in here;
      }
    }
  }

  lemma ProblemsOnce(d: Designation)
    ensures Distinct(Problems(d))
  {
    HistoryProblemsOnce(d.acts);
    hide HistoryProblems;
    var history := HistoryProblems(d.acts);
    forall i | 0 <= i < |history| ensures 0 <= About(history[i]) { assert history[i] in history; }
  }

  /** The problems reported are exactly those that stand, each once. */
  lemma ProblemsStand(d: Designation, p: Problem)
    ensures p in Problems(d) <==> Stands(d, p)
    ensures Distinct(Problems(d))
  {
    assert d.acts[..|d.acts|] == d.acts;
    HistoryProblemsStand(d, |d.acts|, p);
    ProblemsOnce(d);
    hide HistoryProblems, InForceAt, Distinct;
    if About(p) >= 0 {
      assert p in Problems(d) <==> p in HistoryProblems(d.acts);
    } else {
      assert p !in HistoryProblems(d.acts);
    }
  }

  // ---- the validator is the replay ---------------------------------------

  function Replay(rec: Record, kind: Kind, acts: seq<Act>): Result<Record, Refusal> {
    if acts == [] then Ok(rec)
    else
      var n := |acts| - 1;
      match Replay(rec, kind, acts[..n])
      case Err(e) => Err(e)
      case Ok(held) => Designated(held, kind, acts[n].version, acts[n].impact, acts[n].owner, acts[n].at)
  }

  /** Times as the transition function stores them. */
  ghost predicate CanonicalTimes(acts: seq<Act>) {
    forall i :: 0 <= i < |acts| ==> Canonical(acts[i].at) == acts[i].at
  }

  lemma ReplayShape(kind: Kind, acts: seq<Act>)
    requires kind.Valid() && acts != [] && Replay(EMPTY, kind, acts).Ok?
    ensures var r := Replay(EMPTY, kind, acts).value;
            && Valid(r)
            && For(r, kind).Some?
            && r == Put(EMPTY, kind, For(r, kind).value)
            && For(r, kind).value.active == acts[|acts| - 1].version
  {
    var n := |acts| - 1;
    var held, a := Replay(EMPTY, kind, acts[..n]).value, acts[n];
    ReplayKeepsOther(kind, acts[..n]);
    DesignationExtends(held, kind, a.version, a.impact, a.owner, a.at);
    hide Designated, Valid, Extended;
  }

  lemma {:induction false} ReplayKeepsOther(kind: Kind, acts: seq<Act>)
    requires kind.Valid() && Replay(EMPTY, kind, acts).Ok?
    ensures Other(Replay(EMPTY, kind, acts).value, kind) == None
  {
    hide Problems, Designated;
    if acts != [] {
      var n := |acts| - 1;
      ReplayKeepsOther(kind, acts[..n]);
      var held := Replay(EMPTY, kind, acts[..n]).value;
      DesignationExtends(held, kind, acts[n].version, acts[n].impact, acts[n].owner, acts[n].at);
    }
  }

  /** A sound history, times as stored, replays to itself. */
  lemma {:induction false} SoundReplays(kind: Kind, acts: seq<Act>)
    requires kind.Valid() && acts != []
    requires HistoryProblems(acts) == [] && CanonicalTimes(acts)
    ensures Replay(EMPTY, kind, acts) == Ok(Put(EMPTY, kind, Designation(acts[|acts| - 1].version, acts)))
  {
    hide Problems, Designated, Canonical;
    var n := |acts| - 1;
    var before, a := acts[..n], acts[n];
    assert acts == before + [a];
    OneMoreAct(before, a);
    SoundHistory(before);
    if before != [] { SoundReplays(kind, before); }
    assert before == [] ==> InForce(before) == "";
    var held := Replay(EMPTY, kind, before).value;
    assert Active(held, kind) == InForce(before);
    if before != [] { ReplayShape(kind, before); }
    DesignatesExactly(held, kind, a.version, a.impact, a.owner, a.at);
    assert Canonical(a.at) == a.at;
    ReplayKeepsOther(kind, before);
    DesignationExtends(held, kind, a.version, a.impact, a.owner, a.at);
    assert Act(a.version, a.previous, a.at, a.owner, a.impact) == a;
    assert Extended(held, kind, a.version, a.impact, a.owner, a.at).acts == acts;
    assert acts[..n] == before;
  }

  /** A history that replays to itself has its times as stored. */
  lemma {:induction false} ReplayedTimes(kind: Kind, acts: seq<Act>)
    requires kind.Valid() && acts != [] && Replay(EMPTY, kind, acts).Ok?
    requires For(Replay(EMPTY, kind, acts).value, kind).Some?
    requires For(Replay(EMPTY, kind, acts).value, kind).value.acts == acts
    ensures CanonicalTimes(acts)
  {
    hide Problems, Designated, Canonical;
    var n := |acts| - 1;
    var before, a := acts[..n], acts[n];
    var held := Replay(EMPTY, kind, before).value;
    DesignationExtends(held, kind, a.version, a.impact, a.owner, a.at);
    var next := Extended(held, kind, a.version, a.impact, a.owner, a.at);
    assert next.acts == acts;
    assert next.acts[n] == a && next.acts[..n] == before;
    if before != [] {
      ReplayShape(kind, before);
      assert For(held, kind).value.acts == before;
      ReplayedTimes(kind, before);
    }
    forall i | 0 <= i < |acts| ensures Canonical(acts[i].at) == acts[i].at {
      if i < n { assert acts[i] == before[i]; }
    }
  }

  /** The validator accepts exactly the histories the transition function can
      build: no problem, times as stored, if and only if designating each act
      in turn from the empty record rebuilds the designation. */
  lemma ValidatorIsReplay(kind: Kind, d: Designation)
    requires kind.Valid()
    ensures Problems(d) == [] && CanonicalTimes(d.acts) <==> Replay(EMPTY, kind, d.acts) == Ok(Put(EMPTY, kind, d))
  {
    hide Designated, HistoryProblems, CanonicalTimes;
    if d.acts != [] {
      SoundHistory(d.acts);
      if Problems(d) == [] && CanonicalTimes(d.acts) {
        SoundReplays(kind, d.acts);
      }
      if Replay(EMPTY, kind, d.acts) == Ok(Put(EMPTY, kind, d)) {
        ReplayShape(kind, d.acts);
        ReplayedTimes(kind, d.acts);
      }
    }
  }

  /** A time off the second, or outside UTC, is valid but was never stored by
      an activation. */
  lemma ValidButNeverStored()
    ensures var a := Act("v1", "", Time(SECOND + 1, true), "team", Impact("first", []));
            var d := Designation("v1", [a]);
            Problems(d) == [] && Replay(EMPTY, Catalogue, d.acts) != Ok(Put(EMPTY, Catalogue, d))
  {
    var a := Act("v1", "", Time(SECOND + 1, true), "team", Impact("first", []));
    var d := Designation("v1", [a]);
    NoHistory();
    OneMoreAct([], a);
    assert [] + [a] == [a];
    ValidatorIsReplay(Catalogue, d);
    assert Canonical(a.at) != a.at;
    assert d.acts[0] == a;
  }

  // ---- runs --------------------------------------------------------------

  datatype Decision =
    | Directly(kind: Kind, version: string, impact: Impact, owner: string, at: Time)
    | OnReport(kind: Kind, report: Report, owner: string, at: Time)

  function Decide(rec: Record, c: Decision): Result<Record, Refusal> {
    match c
    case Directly(kind, version, impact, owner, at) => Designated(rec, kind, version, impact, owner, at)
    case OnReport(kind, report, owner, at) => Applied(rec, kind, report, owner, at)
  }

  /** The record after some decisions; a refused one leaves it as it was. */
  function AfterAll(rec: Record, decisions: seq<Decision>): Record {
    if decisions == [] then rec
    else
      var held := AfterAll(rec, decisions[..|decisions| - 1]);
      match Decide(held, decisions[|decisions| - 1])
      case Err(_) => held
      case Ok(next) => next
  }

  method Apply(rec: Record, kind: Kind, rep: Report, owner: string, at: Time) returns (out: Result<Record, Refusal>)
    ensures out == Applied(rec, kind, rep, owner, at)
  {
    hide Designated;
    if !kind.Valid() { return Err(NotASubstrate); }
    if rep.kind != kind { return Err(WrongSubstrate); }
    if rep.to == "" { return Err(NothingToActivate); }
    if owner == "" { return Err(NobodyDeciding); }
    var current := Active(rec, kind);
    if rep.from != current { return Err(StaleReport); }
    if rep.to == current { return Err(AlreadyInForce); }
    out := Designate(rec, kind, rep.to, rep.impact, owner, at);
  }

  function Acts(r: Record, kind: Kind): seq<Act> {
    if For(r, kind).Some? then For(r, kind).value.acts else []
  }

  /** One decision over a valid record: valid still, every history only longer,
      the substrate not decided on untouched, and each substrate's active
      version the last one its history designates. */
  lemma DecisionKeeps(rec: Record, c: Decision)
    requires Valid(rec) && Decide(rec, c).Ok?
    ensures var next := Decide(rec, c).value;
            && Valid(next)
            && (forall k: Kind :: Acts(rec, k) <= Acts(next, k))
            && |Acts(next, c.kind)| == |Acts(rec, c.kind)| + 1
            && (forall k: Kind :: k != c.kind ==> For(next, k) == For(rec, k))
  {
    hide Problems, Designated;
    var version := if c.Directly? then c.version else c.report.to;
    var impact := if c.Directly? then c.impact else c.report.impact;
    assert Decide(rec, c) == Designated(rec, c.kind, version, impact, c.owner, c.at);
    DesignatesExactly(rec, c.kind, version, impact, c.owner, c.at);
    DesignationExtends(rec, c.kind, version, impact, c.owner, c.at);
  }

  lemma ActiveIsLatest(rec: Record, kind: Kind)
    requires Valid(rec) && For(rec, kind).Some?
    ensures Acts(rec, kind) != [] && Active(rec, kind) == Acts(rec, kind)[|Acts(rec, kind)| - 1].version != ""
  {
  }

  ghost predicate NoneAbout(decisions: seq<Decision>, kind: Kind) {
    forall i :: 0 <= i < |decisions| ==> decisions[i].kind != kind
  }

  /** Over every run of decisions, granted or refused: the record stays valid,
      histories are only ever extended, and the active version of a substrate
      is the one its last act designated. */
  lemma {:induction false} RunsKeep(rec: Record, decisions: seq<Decision>)
    requires Valid(rec)
    ensures Valid(AfterAll(rec, decisions))
    ensures forall k: Kind :: Acts(rec, k) <= Acts(AfterAll(rec, decisions), k)
    ensures forall k: Kind :: For(AfterAll(rec, decisions), k).Some? ==>
      var acts := Acts(AfterAll(rec, decisions), k);
      acts != [] && Active(AfterAll(rec, decisions), k) == acts[|acts| - 1].version
    ensures forall k: Kind :: NoneAbout(decisions, k) ==> For(AfterAll(rec, decisions), k) == For(rec, k)
  {
    hide Valid, Decide;
    if decisions != [] {
      var n := |decisions| - 1;
      var before := decisions[..n];
      RunsKeep(rec, before);
      var held := AfterAll(rec, before);
      if Decide(held, decisions[n]).Ok? { DecisionKeeps(held, decisions[n]); }
      forall k: Kind | NoneAbout(decisions, k) ensures NoneAbout(before, k) {}
    }
    forall k: Kind | For(AfterAll(rec, decisions), k).Some? ensures
        var acts := Acts(AfterAll(rec, decisions), k);
        acts != [] && Active(AfterAll(rec, decisions), k) == acts[|acts| - 1].version
    {
      ActiveIsLatest(AfterAll(rec, decisions), k);
    }
  }

  /** One more decision: granted, the record it leaves; refused, the record as
      it was. */
  lemma RunSteps(rec: Record, decisions: seq<Decision>, c: Decision)
    ensures var held := AfterAll(rec, decisions);
      && (Decide(held, c).Ok? ==> AfterAll(rec, decisions + [c]) == Decide(held, c).value)
      && (Decide(held, c).Err? ==> AfterAll(rec, decisions + [c]) == held)
    ensures c.Directly? ==> Decide(AfterAll(rec, decisions), c) == Designated(AfterAll(rec, decisions), c.kind, c.version, c.impact, c.owner, c.at)
    ensures c.OnReport? ==> Decide(AfterAll(rec, decisions), c) == Applied(AfterAll(rec, decisions), c.kind, c.report, c.owner, c.at)
  {
    hide Designated, Applied;
    assert (decisions + [c])[..|decisions|] == decisions;
  }
}
