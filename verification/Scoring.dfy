/** Counting a verdict, and waiving findings out of the count without touching
    the diagnosis (internal/conformance/conformance.go, waivers.go,
    exemptions.go, estate.go). */
module Scoring {
  import opened Base
  import opened Verdicts
  import opened DerivedEstate

  // ---- the score ---------------------------------------------------------

  datatype Score = Score(total: nat, passing: nat, waived: nat, failing: nat, advisory: nat, neutral: nat) {
    /** Passing over counted, as a rational. */
    function Ratio(): real {
      var counted := total - waived;
      if counted <= 0 then 1.0 else passing as real / counted as real
    }
  }

  const NOTHING := Score(0, 0, 0, 0, 0, 0)

  function Tally(s: Score, f: Finding): Score {
    if !f.Scored() then
      (if f.Weight() == Neutral then s.(neutral := s.neutral + 1) else s.(advisory := s.advisory + 1))
    else
      var t := s.(total := s.total + 1);
      if f.outcome.Passing() then t.(passing := t.passing + 1)
      else if !f.Counts() then t.(waived := t.waived + 1)
      else t.(failing := t.failing + 1)
  }

  function ScoreOf(findings: seq<Finding>): Score {
    if findings == [] then NOTHING else Tally(ScoreOf(findings[..|findings| - 1]), findings[|findings| - 1])
  }

  method ScoreLoop(findings: seq<Finding>) returns (s: Score)
    ensures s == ScoreOf(findings)
  {
    s := NOTHING;
    for i := 0 to |findings|
      invariant s == ScoreOf(findings[..i])
    {
      assert findings[..i + 1][..i] == findings[..i];
      s := Tally(s, findings[i]);
    }
    assert findings[..|findings|] == findings;
  }

  /** The outcome to look at first. */
  function WorstOf(findings: seq<Finding>): Outcome {
    if findings == [] then Compliant
    else
      var f := findings[|findings| - 1];
      var before := WorstOf(findings[..|findings| - 1]);
      if f.Counts() && f.Scored() then Worst(before, f.outcome) else before
  }

  method WorstLoop(findings: seq<Finding>) returns (worst: Outcome)
    ensures worst == WorstOf(findings)
  {
    worst := Compliant;
    for i := 0 to |findings|
      invariant worst == WorstOf(findings[..i])
    {
      assert findings[..i + 1][..i] == findings[..i];
      if !findings[i].Counts() || !findings[i].Scored() { continue; }
      if findings[i].outcome.Severity() > worst.Severity() { worst := findings[i].outcome; }
    }
    assert findings[..|findings|] == findings;
  }

  ghost function Counted(findings: seq<Finding>, keep: Finding -> bool): nat {
    if findings == [] then 0
    else Counted(findings[..|findings| - 1], keep) + if keep(findings[|findings| - 1]) then 1 else 0
  }

  /** An ungraded finding weighs as a violation. */
  ghost predicate ViolationGrade(f: Finding) { f.grade == None || f.grade == Some(Violation) }

  ghost predicate PassingOutcome(f: Finding) { f.outcome == Compliant || f.outcome == Ungoverned }

  /** The score partitions the violation-grade findings, and only those: what
      passes, what is waived and what fails, with the rest counted beside. */
  lemma {:induction false} ScoreConserves(findings: seq<Finding>)
    ensures var s := ScoreOf(findings);
            && s.total == s.passing + s.waived + s.failing
            && s.total + s.advisory + s.neutral == |findings|
            && s.total == Counted(findings, f => ViolationGrade(f))
            && s.passing == Counted(findings, f => ViolationGrade(f) && PassingOutcome(f))
            && s.waived == Counted(findings, f => ViolationGrade(f) && !PassingOutcome(f) && f.waived != WaiverNone)
            && s.failing == Counted(findings, f => ViolationGrade(f) && !PassingOutcome(f) && f.waived == WaiverNone)
            && s.advisory == Counted(findings, (f: Finding) => f.grade == Some(Advisory))
            && s.neutral == Counted(findings, (f: Finding) => f.grade == Some(Neutral))
  {
    if findings != [] { ScoreConserves(findings[..|findings| - 1]); }
  }

  lemma Quotient(p: int, c: int)
    requires 0 <= p <= c && 0 < c
    ensures 0.0 <= p as real / c as real <= 1.0
    ensures p as real / c as real == 1.0 <==> p == c
    ensures (p as real / c as real) * c as real == p as real
  {
  }

  lemma RatioOf(s: Score)
    requires s.total == s.passing + s.waived + s.failing
    ensures if s.passing + s.failing == 0 then s.Ratio() == 1.0 else s.Ratio() * (s.passing + s.failing) as real == s.passing as real
    ensures 0.0 <= s.Ratio() <= 1.0 && (s.Ratio() == 1.0 <==> s.failing == 0)
  {
    if s.total - s.waived > 0 { Quotient(s.passing, s.total - s.waived); }
  }

  /** The ratio is what passes over what counts, one where nothing counts: a
      proportion, and perfect exactly when nothing fails. */
  lemma RatioMeans(findings: seq<Finding>)
    ensures var s := ScoreOf(findings);
            if s.passing + s.failing == 0 then s.Ratio() == 1.0 else s.Ratio() * (s.passing + s.failing) as real == s.passing as real
    ensures 0.0 <= ScoreOf(findings).Ratio() <= 1.0
    ensures ScoreOf(findings).Ratio() == 1.0 <==> ScoreOf(findings).failing == 0
    ensures ScoreOf(findings).failing == 0 <==> forall f :: f in findings && ViolationGrade(f) && f.waived == WaiverNone ==> PassingOutcome(f)
  {
    hide ScoreOf, Score.Ratio, Counted;
    TotalsAdd(findings);
    FailingCounted(findings);
    RatioOf(ScoreOf(findings));
  }

  lemma TotalsAdd(findings: seq<Finding>)
    ensures ScoreOf(findings).total == ScoreOf(findings).passing + ScoreOf(findings).waived + ScoreOf(findings).failing
  {
    ScoreConserves(findings);
  }

  lemma {:induction false} FailingCounted(findings: seq<Finding>)
    ensures ScoreOf(findings).failing == 0 <==> forall f :: f in findings ==> !f.Failing()
  {
    if findings != [] {
      var n := |findings| - 1;
      assert findings == findings[..n] + [findings[n]];
      FailingCounted(findings[..n]);
      assert findings[n] in findings;
    }
  }

  /** The outcomes from the most severe to the least. */
  lemma SeverityOrder()
    ensures BrokenPipeline.Severity() > NotConfigured.Severity() > NotDelivered.Severity() > Misconfigured.Severity()
    ensures Misconfigured.Severity() > LibraryDrift.Severity() > Outcome.Unknown.Severity() > Ungoverned.Severity() > Compliant.Severity()
  {
  }

  /** The worst outcome is the most severe counting violation, and Compliant
      when there is none. */
  lemma {:induction false} WorstMeans(findings: seq<Finding>)
    ensures forall f :: f in findings && f.waived == WaiverNone && ViolationGrade(f) ==> f.outcome.Severity() <= WorstOf(findings).Severity()
    ensures WorstOf(findings) == Compliant ||
      exists f :: f in findings && f.waived == WaiverNone && ViolationGrade(f) && f.outcome == WorstOf(findings)
  {
    if findings != [] {
      var n := |findings| - 1;
      assert findings == findings[..n] + [findings[n]];
      WorstMeans(findings[..n]);
      assert findings[n] in findings;
    }
  }

  // ---- what waives -------------------------------------------------------

  /** Exactly one of `service` and `team` is set on a loaded exemption. */
  datatype Exemption = Exemption(id: string, requirement: string, expires: int, service: string, team: string) {
    predicate Expired(now: int) { now >= expires }
  }

  datatype GraceEntry = GraceEntry(class_: string, window: int)

  datatype Failure = NoOwnershipModel(exemption: string) | SubtreeFailed(exemption: string, cause: string)

  /** Whether a Service belongs to a Team's subtree, or why that cannot be
      told. */
  type Subtree = (string, string) -> Result<bool, string>

  datatype Waivers = Waivers(exemptions: seq<Exemption>, grace: seq<GraceEntry>, inSubtree: Option<Subtree>)

  function WindowFor(grace: seq<GraceEntry>, class_: string): Option<int> {
    if grace == [] then None
    else if grace[0].class_ == class_ then Some(grace[0].window)
    else WindowFor(grace[1..], class_)
  }

  /** When the row's Grace Period ends, while `now` is inside it. */
  function GraceUntil(grace: seq<GraceEntry>, row: EstateRow, now: int): Option<int> {
    if row.class_ == "" || row.onboarded.None? then None
    else
      match WindowFor(grace, row.class_)
      case None => None
      case Some(window) =>
        var end := row.onboarded.value + window;
        if now < row.onboarded.value || now >= end then None else Some(end)
  }

  /** What one exemption says of one requirement on one Service. */
  function Covers(e: Exemption, inSubtree: Option<Subtree>, requirement: string, service: string, now: int): Result<bool, Failure> {
    if e.requirement != requirement || e.Expired(now) then Ok(false)
    else if e.service != "" then Ok(e.service == service)
    else if inSubtree.None? then Err(NoOwnershipModel(e.id))
    else
      match inSubtree.value(service, e.team)
      case Err(cause) => Err(SubtreeFailed(e.id, cause))
      case Ok(inside) => Ok(inside)
  }

  function ExemptionFor(es: seq<Exemption>, inSubtree: Option<Subtree>, requirement: string, service: string, now: int):
    Result<Option<Exemption>, Failure>
  {
    if es == [] then Ok(None)
    else
      match Covers(es[0], inSubtree, requirement, service, now)
      case Err(f) => Err(f)
      case Ok(covered) =>
        if covered then Ok(Some(es[0])) else ExemptionFor(es[1..], inSubtree, requirement, service, now)
  }

  method ExemptionForLoop(w: Waivers, requirement: string, service: string, now: int)
    returns (found: Result<Option<Exemption>, Failure>)
    ensures found == ExemptionFor(w.exemptions, w.inSubtree, requirement, service, now)
  {
    for i := 0 to |w.exemptions|
      invariant ExemptionFor(w.exemptions[i..], w.inSubtree, requirement, service, now)
        == ExemptionFor(w.exemptions, w.inSubtree, requirement, service, now)
    {
      var e := w.exemptions[i];
      assert w.exemptions[i..][1..] == w.exemptions[i + 1..];
      if e.requirement != requirement || e.Expired(now) { continue; }
      if e.service != "" {
        if e.service == service { return Ok(Some(e)); }
        continue;
      }
      if w.inSubtree.None? { return Err(NoOwnershipModel(e.id)); }
      var inside := w.inSubtree.value(service, e.team);
      if inside.Err? { return Err(SubtreeFailed(e.id, inside.error)); }
      if inside.value { return Ok(Some(e)); }
    }
    assert w.exemptions[|w.exemptions|..] == [];
    return Ok(None);
  }

  /** The first exemption that covers is credited, and a scope that cannot be
      resolved before it is an error, never a waiver that silently does not
      apply. */
  lemma {:induction false} FirstCoverWins(es: seq<Exemption>, inSubtree: Option<Subtree>, requirement: string, service: string, now: int)
    returns (i: nat)
    ensures i <= |es|
    ensures forall k :: 0 <= k < i ==> Covers(es[k], inSubtree, requirement, service, now) == Ok(false)
    ensures i == |es| ==> ExemptionFor(es, inSubtree, requirement, service, now) == Ok(None)
    ensures i < |es| ==> Covers(es[i], inSubtree, requirement, service, now) != Ok(false)
    ensures i < |es| && Covers(es[i], inSubtree, requirement, service, now).Ok? ==>
      ExemptionFor(es, inSubtree, requirement, service, now) == Ok(Some(es[i]))
    ensures i < |es| && Covers(es[i], inSubtree, requirement, service, now).Err? ==>
      ExemptionFor(es, inSubtree, requirement, service, now) == Err(Covers(es[i], inSubtree, requirement, service, now).error)
  {
    hide Covers;
    i := 0;
    if es != [] && Covers(es[0], inSubtree, requirement, service, now) == Ok(false) {
      var k := FirstCoverWins(es[1..], inSubtree, requirement, service, now);
      i := k + 1;
    }
  }

  // ---- applying the waivers ----------------------------------------------

  /** One finding after the waivers. */
  function WaiveOne(w: Waivers, row: EstateRow, now: int, f: Finding): Result<Finding, Failure> {
    if f.outcome.Passing() then Ok(f)
    else
      match ExemptionFor(w.exemptions, w.inSubtree, f.requirement, row.row.service, now)
      case Err(e) => Err(e)
      case Ok(Some(ex)) => Ok(f.(waived := WaiverExempt(ex.id)))
      case Ok(None) =>
        match GraceUntil(w.grace, row, now)
        case Some(until) => Ok(f.(waived := WaiverGrace(until)))
        case None => Ok(f)
  }

  /** The first index whose finding cannot be judged, or the length. */
  function StopsAt(w: Waivers, row: EstateRow, now: int, findings: seq<Finding>): (i: nat)
    ensures i <= |findings|
    ensures forall k :: 0 <= k < i ==> WaiveOne(w, row, now, findings[k]).Ok?
    ensures i < |findings| ==> WaiveOne(w, row, now, findings[i]).Err?
  {
    if findings == [] || WaiveOne(w, row, now, findings[0]).Err? then 0
    else 1 + StopsAt(w, row, now, findings[1..])
  }

  /** The findings after the waivers: waived up to the first failure, and as
      they were from there on. */
  function Waived(w: Waivers, row: EstateRow, now: int, findings: seq<Finding>): (r: seq<Finding>)
    ensures |r| == |findings|
  {
    var stop := StopsAt(w, row, now, findings);
    seq(|findings|, i requires 0 <= i < |findings| =>
      if i < stop then WaiveOne(w, row, now, findings[i]).value else findings[i])
  }

  /** Writes the waivers through into the findings, in place. */
  method Apply(w: Waivers, findings: array<Finding>, row: EstateRow, now: int) returns (failed: Option<Failure>)
    modifies findings
    ensures findings[..] == Waived(w, row, now, old(findings[..]))
    ensures failed.Some? <==> StopsAt(w, row, now, old(findings[..])) < findings.Length
    ensures failed.Some? ==> WaiveOne(w, row, now, old(findings[..])[StopsAt(w, row, now, old(findings[..]))]) == Err(failed.value)
  {
    ghost var was := findings[..];
    ghost var stop := StopsAt(w, row, now, was);
    for i := 0 to findings.Length
      invariant i <= stop
      invariant forall k :: 0 <= k < i ==> findings[k] == WaiveOne(w, row, now, was[k]).value
      invariant forall k :: i <= k < findings.Length ==> findings[k] == was[k]
    {
      var f := findings[i];
      assert f == was[i];
      if f.outcome.Passing() {
        assert WaiveOne(w, row, now, was[i]) == Ok(f);
        continue;
      }
      var ex := ExemptionForLoop(w, f.requirement, row.row.service, now);
      if ex.Err? {
        assert findings[..] == Waived(w, row, now, was);
        return Some(ex.error);
      }
      if ex.value.Some? {
        findings[i] := f.(waived := WaiverExempt(ex.value.value.id));
        continue;
      }
      var until := GraceUntil(w.grace, row, now);
      if until.Some? { findings[i] := f.(waived := WaiverGrace(until.value)); }
    }
    assert findings[..] == Waived(w, row, now, was);
    return None;
  }

  // ---- which waiver, over the authored exemptions --------------------------

  /** In force, about this requirement, and scoped to this Service or to a Team
      whose subtree it is in. */
  ghost predicate Exempts(e: Exemption, inSubtree: Option<Subtree>, requirement: string, service: string, now: int) {
    && e.requirement == requirement && now < e.expires
    && if e.service != "" then e.service == service else inSubtree.Some? && inSubtree.value(service, e.team) == Ok(true)
  }

  /** In force and about this requirement, but scoped to a Team whose subtree
      cannot be told. */
  ghost predicate Unresolvable(e: Exemption, inSubtree: Option<Subtree>, requirement: string, service: string, now: int) {
    && e.requirement == requirement && now < e.expires && e.service == ""
    && (inSubtree.None? || inSubtree.value(service, e.team).Err?)
  }

  /** The row is inside the Grace Period of its class, which ends at `until`:
      counted from its onboarding by the class's first window. */
  ghost predicate InGrace(grace: seq<GraceEntry>, row: EstateRow, now: int, until: int) {
    && row.class_ != "" && row.onboarded.Some? && row.onboarded.value <= now < until
    && exists k :: 0 <= k < |grace| && grace[k].class_ == row.class_ && (forall j :: 0 <= j < k ==> grace[j].class_ != row.class_)
         && until == row.onboarded.value + grace[k].window
  }

  lemma {:induction false} WindowIsFirst(grace: seq<GraceEntry>, class_: string) returns (k: nat)
    ensures k <= |grace| && forall j :: 0 <= j < k ==> grace[j].class_ != class_
    ensures WindowFor(grace, class_) == if k == |grace| then None else Some(grace[k].window)
    ensures k < |grace| ==> grace[k].class_ == class_
  {
    k := 0;
    if grace != [] && grace[0].class_ != class_ {
      var j := WindowIsFirst(grace[1..], class_);
      k := j + 1;
      forall i | 0 <= i < k ensures grace[i].class_ != class_ { if i > 0 { assert grace[1..][i - 1] == grace[i]; } }
    }
  }

  lemma GraceIs(grace: seq<GraceEntry>, row: EstateRow, now: int, until: int)
    ensures GraceUntil(grace, row, now) == Some(until) <==> InGrace(grace, row, now, until)
  {
    var k := WindowIsFirst(grace, row.class_);
    if InGrace(grace, row, now, until) {
      var j :| 0 <= j < |grace| && grace[j].class_ == row.class_ && (forall i :: 0 <= i < j ==> grace[i].class_ != row.class_)
        && until == row.onboarded.value + grace[j].window;
      assert j == k;
    }
  }

  /** A passing finding is left alone. Any other is decided by the first
      exemption that exempts it or cannot be resolved: waived in the one's
      name, or a failure naming the other. With neither, it is waived while
      the row is in its Grace Period, and otherwise stands. */
  lemma WaiverExactly(w: Waivers, row: EstateRow, now: int, f: Finding) returns (i: nat)
    ensures PassingOutcome(f) ==> WaiveOne(w, row, now, f) == Ok(f)
    ensures i <= |w.exemptions| && forall k :: 0 <= k < i ==>
      && !Exempts(w.exemptions[k], w.inSubtree, f.requirement, row.row.service, now)
      && !Unresolvable(w.exemptions[k], w.inSubtree, f.requirement, row.row.service, now)
    ensures !PassingOutcome(f) && i < |w.exemptions| ==>
      if Exempts(w.exemptions[i], w.inSubtree, f.requirement, row.row.service, now)
      then WaiveOne(w, row, now, f) == Ok(f.(waived := WaiverExempt(w.exemptions[i].id)))
      else
        && Unresolvable(w.exemptions[i], w.inSubtree, f.requirement, row.row.service, now)
        && WaiveOne(w, row, now, f).Err? && WaiveOne(w, row, now, f).error.exemption == w.exemptions[i].id
        && (WaiveOne(w, row, now, f).error.NoOwnershipModel? <==> w.inSubtree.None?)
    ensures !PassingOutcome(f) && i == |w.exemptions| ==>
      && (forall until :: InGrace(w.grace, row, now, until) ==> WaiveOne(w, row, now, f) == Ok(f.(waived := WaiverGrace(until))))
      && ((forall until :: !InGrace(w.grace, row, now, until)) ==> WaiveOne(w, row, now, f) == Ok(f))
  {
    i := FirstCoverWins(w.exemptions, w.inSubtree, f.requirement, row.row.service, now);
    forall e { CoversIs(e, w.inSubtree, f.requirement, row.row.service, now); }
    forall until ensures GraceUntil(w.grace, row, now) == Some(until) <==> InGrace(w.grace, row, now, until) {
      GraceIs(w.grace, row, now, until);
    }
    hide GraceUntil, InGrace, ExemptionFor, Covers, Exempts, Unresolvable;
  }

  lemma CoversIs(e: Exemption, inSubtree: Option<Subtree>, requirement: string, service: string, now: int)
    ensures Covers(e, inSubtree, requirement, service, now) == Ok(true) <==> Exempts(e, inSubtree, requirement, service, now)
    ensures Covers(e, inSubtree, requirement, service, now).Err? <==> Unresolvable(e, inSubtree, requirement, service, now)
    ensures Covers(e, inSubtree, requirement, service, now).Err? ==>
      var failure := Covers(e, inSubtree, requirement, service, now).error;
      failure.exemption == e.id && (failure.NoOwnershipModel? <==> inSubtree.None?)
  {
  }

  // ---- a waiver waives the count, never the diagnosis --------------------

  /** `g` is `f` with at most its waiver changed; a passing finding is left
      alone and a waived one is never un-waived. */
  predicate OnlyWaived(f: Finding, g: Finding) {
    && g == f.(waived := g.waived)
    && (f.outcome.Passing() ==> g == f)
    && (!f.Counts() ==> !g.Counts())
  }

  ghost predicate AllOnlyWaived(before: seq<Finding>, after: seq<Finding>) {
    |before| == |after| && forall i :: 0 <= i < |before| ==> OnlyWaived(before[i], after[i])
  }

  lemma WaivedOnlyWaives(w: Waivers, row: EstateRow, now: int, findings: seq<Finding>)
    ensures AllOnlyWaived(findings, Waived(w, row, now, findings))
  {
  }

  /** Counts move from failing to waived, and nowhere else. */
  lemma {:induction false} CountsMove(before: seq<Finding>, after: seq<Finding>)
    requires AllOnlyWaived(before, after)
    ensures var s, t := ScoreOf(before), ScoreOf(after);
            && t.total == s.total && t.passing == s.passing && t.advisory == s.advisory && t.neutral == s.neutral
            && t.failing <= s.failing && t.waived - s.waived == s.failing - t.failing
  {
    if before != [] {
      var n := |before| - 1;
      CountsMove(before[..n], after[..n]);
      assert OnlyWaived(before[n], after[n]);
    }
  }

  lemma RatioGrows(p: int, c: int, d: int)
    requires 0 <= p <= d <= c && 0 < d
    ensures p as real / c as real <= p as real / d as real
  {
    var q, r := p as real / c as real, p as real / d as real;
    assert q * c as real == p as real == r * d as real;
    if q > r { Product(r, q, d as real, c as real); }
  }

  lemma Product(r: real, q: real, d: real, c: real)
    requires 0.0 <= r < q && 0.0 < d <= c
    ensures r * d < q * c
  {
  }

  lemma {:induction false} WorstEases(before: seq<Finding>, after: seq<Finding>)
    requires AllOnlyWaived(before, after)
    ensures WorstOf(after).Severity() <= WorstOf(before).Severity()
  {
    if before != [] {
      var n := |before| - 1;
      WorstEases(before[..n], after[..n]);
      assert OnlyWaived(before[n], after[n]);
    }
  }

  /** Applying waivers, whether or not it fails part-way, preserves every
      outcome, grade and detail, moves counts only from failing to waived,
      never lowers the ratio and never raises the worst outcome. */
  lemma WaiversConserve(w: Waivers, row: EstateRow, now: int, findings: seq<Finding>)
    ensures var after := Waived(w, row, now, findings);
            && |after| == |findings|
            && (forall i :: 0 <= i < |findings| ==>
              && after[i] == findings[i].(waived := after[i].waived)
              && (PassingOutcome(findings[i]) ==> after[i] == findings[i])
              && (findings[i].waived != WaiverNone ==> after[i].waived != WaiverNone))
            && ScoreOf(after).total == ScoreOf(findings).total
            && ScoreOf(after).passing == ScoreOf(findings).passing
            && ScoreOf(after).advisory == ScoreOf(findings).advisory
            && ScoreOf(after).neutral == ScoreOf(findings).neutral
            && ScoreOf(after).waived - ScoreOf(findings).waived == ScoreOf(findings).failing - ScoreOf(after).failing >= 0
            && ScoreOf(after).Ratio() >= ScoreOf(findings).Ratio()
            && WorstOf(after).Severity() <= WorstOf(findings).Severity()
  {
    hide Waived, ScoreOf, WorstOf;
    var after := Waived(w, row, now, findings);
    WaivedOnlyWaives(w, row, now, findings);
    CountsMove(findings, after);
    WorstEases(findings, after);
    ScoreConserves(findings);
    ScoreConserves(after);
    var s, t := ScoreOf(findings), ScoreOf(after);
    if t.total - t.waived > 0 {
      RatioGrows(s.passing, s.total - s.waived, t.total - t.waived);
    } else {
      RatioMeans(findings);
    }
  }

  lemma WaiveOneTwice(w: Waivers, row: EstateRow, now: int, f: Finding)
    requires WaiveOne(w, row, now, f).Ok?
    ensures WaiveOne(w, row, now, WaiveOne(w, row, now, f).value) == WaiveOne(w, row, now, f)
  {
  }

  lemma StopsThere(w: Waivers, row: EstateRow, now: int, findings: seq<Finding>, i: nat)
    requires i <= |findings|
    requires forall k :: 0 <= k < i ==> WaiveOne(w, row, now, findings[k]).Ok?
    requires i < |findings| ==> WaiveOne(w, row, now, findings[i]).Err?
    ensures StopsAt(w, row, now, findings) == i
  {
  }

  /** At one instant, applying the waivers again changes nothing, and fails
      where it failed before. */
  lemma WaivingTwiceIsOnce(w: Waivers, row: EstateRow, now: int, findings: seq<Finding>)
    ensures Waived(w, row, now, Waived(w, row, now, findings)) == Waived(w, row, now, findings)
    ensures StopsAt(w, row, now, Waived(w, row, now, findings)) == StopsAt(w, row, now, findings)
  {
    hide WaiveOne, StopsAt;
    var stop := StopsAt(w, row, now, findings);
    var after := Waived(w, row, now, findings);
    forall i | 0 <= i < stop
      ensures WaiveOne(w, row, now, after[i]) == Ok(after[i])
    {
      WaiveOneTwice(w, row, now, findings[i]);
    }
    StopsThere(w, row, now, after, stop);
  }

  /** Expiry is the clock's alone: past every expiry and outside the Grace
      Period, nothing is newly waived. */
  lemma {:induction false} NothingCoversAfterExpiry(es: seq<Exemption>, inSubtree: Option<Subtree>, requirement: string, service: string, now: int)
    requires forall e :: e in es ==> e.Expired(now)
    ensures ExemptionFor(es, inSubtree, requirement, service, now) == Ok(None)
  {
    if es != [] {
      assert es[0] in es;
      NothingCoversAfterExpiry(es[1..], inSubtree, requirement, service, now);
    }
  }

  lemma RawFindingReturns(w: Waivers, row: EstateRow, now: int, findings: seq<Finding>)
    requires forall e :: e in w.exemptions ==> e.Expired(now)
    requires GraceUntil(w.grace, row, now).None?
    ensures Waived(w, row, now, findings) == findings
  {
    hide ExemptionFor, GraceUntil;
    forall f: Finding ensures WaiveOne(w, row, now, f) == Ok(f) {
      NothingCoversAfterExpiry(w.exemptions, w.inSubtree, f.requirement, row.row.service, now);
    }
  }
}
