/** Claims judged over time: settle windows, the readings that cannot say,
    and the shortfall clock that must run its grace window before anything
    goes red (internal/expectation/evaluate.go, internal/inventory/findings.go).
    Instants and durations are integers of nanoseconds. */
module Dampening {
  import opened Base
  import opened Verdicts
  import opened Expectation
  import opened Staleness

  // ---- the shared clock --------------------------------------------------

  datatype FloorSource = FloorAbsent | FloorDeclared | FloorDerived

  datatype Floor = Floor(source: FloorSource, min: int)

  const CLAIM_FLOOR := Floor(FloorDeclared, 1)

  predicate Short(floor: Floor, seen: int) {
    !floor.source.FloorAbsent? && floor.min > 0 && seen < floor.min
  }

  /** One clock per key: when the current shortfall began. */
  class Damper {
    var onset: map<string, int>

    constructor ()
      ensures onset == map[]
    {
      onset := map[];
    }

    /** Recovery clears the clock, the first shortfall starts it, and a
        standing one keeps it. No other key's clock moves. */
    method Observe(key: string, seen: int, floor: Floor, now: int) returns (since: Option<int>)
      modifies this
      ensures !Short(floor, seen) ==> since == None && onset == old(onset) - {key}
      ensures Short(floor, seen) && key in old(onset) ==> since == Some(old(onset)[key]) && onset == old(onset)
      ensures Short(floor, seen) && key !in old(onset) ==> since == Some(now) && onset == old(onset)[key := now]
    {
      if !Short(floor, seen) {
        onset := onset - {key};
        return None;
      }
      if key in onset {
        return Some(onset[key]);
      }
      onset := onset[key := now];
      return Some(now);
    }

    method ClearShortfall(key: string, now: int)
      modifies this
      ensures onset == old(onset) - {key}
    {
      var _ := Observe(key, CLAIM_FLOOR.min, CLAIM_FLOOR, now);
    }
  }

  // ---- what one evaluation of one claim reads ----------------------------

  datatype Status = Green | Pending | StatusUnknown | Red

  /** What the evidence says of a claim before the clock is asked. */
  datatype Evidence = Settling | NoReading | NothingLanded | NotMeasured | Gated | Met | Silent

  /** The population judgement's windows; zero ones take the defaults. */
  datatype Windows = Windows(grace: int, staleAge: int) {
    function Grace(): int { if grace > 0 then grace else 5 * MINUTE }

    function StaleAge(): int { if staleAge > 0 then staleAge else 90 * 24 * 60 * MINUTE }
  }

  datatype Config = Config(settleArrival: int, settleEnrichment: int, settleSelf: int, grace: int, population: Windows) {
    function SettleFor(c: Claim): int {
      match c
      case Arrival(_, _, _, _, _) => if settleArrival > 0 then settleArrival else 30 * MINUTE
      case Enrichment(_, _, _, _, _, _, _) => if settleEnrichment > 0 then settleEnrichment else 30 * MINUTE
      case SelfTelemetry(_, _, _, _, _) => SettleSelf()
    }

    function SettleSelf(): int { if settleSelf > 0 then settleSelf else 30 * SECOND }

    function Grace(): int { if grace > 0 then grace else 5 * MINUTE }
  }

  const SECOND := 1_000_000_000
  const MINUTE := 60 * SECOND

  /** A claim's clock as one evaluation moves it. */
  datatype Judgement = Judgement(key: string, evidence: Evidence, grace: int, now: int)

  predicate IsSettling(appliedAt: Option<int>, window: int, now: int) {
    appliedAt.Some? && Sub(now, appliedAt.value) < window
  }

  function Next(onset: map<string, int>, j: Judgement): map<string, int> {
    if !j.evidence.Silent? then onset - {j.key}
    else if j.key in onset then onset
    else onset[j.key := j.now]
  }

  function Since(onset: map<string, int>, j: Judgement): Option<int> {
    if !j.evidence.Silent? then None else if j.key in onset then Some(onset[j.key]) else Some(j.now)
  }

  function StatusOf(onset: map<string, int>, j: Judgement): Status {
    match j.evidence
    case Settling => Pending
    case NoReading => StatusUnknown
    case NothingLanded => StatusUnknown
    case NotMeasured => StatusUnknown
    case Gated => StatusUnknown
    case Met => Green
    case Silent => if Sub(j.now, Since(onset, j).value) < j.grace then Pending else Red
  }

  function Play(onset: map<string, int>, js: seq<Judgement>): map<string, int> {
    if js == [] then onset else Next(Play(onset, js[..|js| - 1]), js[|js| - 1])
  }

  // ---- red needs persistence ---------------------------------------------

  /** Every evaluation of `key` from `j` up to but not including `n` was a
      known, settled, ungated, unmet reading. */
  ghost predicate SilentFrom(js: seq<Judgement>, j: nat, n: nat, key: string)
    requires n <= |js|
  {
    forall k :: j <= k < n && js[k].key == key ==> js[k].evidence.Silent?
  }

  /** Evaluations run forward in time, after whatever the clock already
      held. */
  ghost predicate Forward(onset: map<string, int>, js: seq<Judgement>) {
    && (forall i, j :: 0 <= i < j < |js| ==> js[i].now <= js[j].now)
    && (forall k, i :: k in onset && 0 <= i < |js| ==> onset[k] <= js[i].now)
  }

  /** One key's clock after a run. */
  function Clock(onset: map<string, int>, js: seq<Judgement>, key: string): Option<int> {
    if js == [] then (if key in onset then Some(onset[key]) else None)
    else
      var last := js[|js| - 1];
      var held := Clock(onset, js[..|js| - 1], key);
      if last.key != key || (last.evidence.Silent? && held.Some?) then held
      else if last.evidence.Silent? then Some(last.now)
      else None
  }

  lemma {:induction false} ClockIsPlayed(onset: map<string, int>, js: seq<Judgement>, key: string)
    ensures Clock(onset, js, key) == if key in Play(onset, js) then Some(Play(onset, js)[key]) else None
  {
    if js != [] { ClockIsPlayed(onset, js[..|js| - 1], key); }
  }

  lemma SilentUpTo(js: seq<Judgement>, j: nat, i: nat, key: string)
    requires j <= i < |js|
    ensures SilentFrom(js, j, i + 1, key) <==> (js[i].key == key ==> js[i].evidence.Silent?) && SilentFrom(js[..i], j, i, key)
  {
    if (js[i].key == key ==> js[i].evidence.Silent?) && SilentFrom(js[..i], j, i, key) {
      forall k | j <= k <= i && js[k].key == key ensures js[k].evidence.Silent? {
        if k < i { assert js[..i][k] == js[k]; }
      }
    }
  }

  /** A running clock was started by an evaluation of the unbroken silence, or
      was held before the run and never reset. */
  lemma {:induction false} ClockStarted(onset: map<string, int>, js: seq<Judgement>, key: string) returns (j: int)
    requires Clock(onset, js, key).Some?
    ensures -1 <= j < |js|
    ensures j == -1 ==> key in onset && SilentFrom(js, 0, |js|, key) && Clock(onset, js, key) == Some(onset[key])
    ensures j >= 0 ==> js[j].key == key && SilentFrom(js, j, |js|, key) && Clock(onset, js, key) == Some(js[j].now)
  {
    j := -1;
    if js != [] {
      var n := |js| - 1;
      if Clock(onset, js[..n], key).Some? {
        j := ClockStarted(onset, js[..n], key);
        SilentUpTo(js, if j < 0 then 0 else j, n, key);
      } else {
        j := n;
      }
    }
  }

  /** An unbroken silence keeps the clock running since no later than its
      first evaluation, and keeps a clock held before the run as it was. */
  lemma {:induction false} ClockRuns(onset: map<string, int>, js: seq<Judgement>, key: string, j: nat)
    requires Forward(onset, js) && j <= |js| && SilentFrom(js, j, |js|, key)
    ensures j < |js| && js[j].key == key ==> Clock(onset, js, key).Some? && Clock(onset, js, key).value <= js[j].now
    ensures j == 0 && key in onset ==> Clock(onset, js, key) == Some(onset[key])
  {
    if js != [] {
      var n := |js| - 1;
      if j <= n {
        SilentUpTo(js, j, n, key);
        ClockRuns(onset, js[..n], key, j);
        if j == n && js[n].key == key && Clock(onset, js[..n], key).Some? {
          var k := ClockStarted(onset, js[..n], key);
        }
      }
    }
  }

  /** Over any run of evaluations sharing one clock, a claim is red exactly
      when an unbroken silence reaches back a whole grace window: to an
      earlier evaluation of it, or to the instant the clock was seeded with. */
  lemma RedExactly(onset: map<string, int>, js: seq<Judgement>, i: nat)
    requires Forward(onset, js) && i < |js|
    requires 0 < js[i].grace && IsDuration(js[i].grace)
    ensures StatusOf(Play(onset, js[..i]), js[i]).Red? <==>
      || (exists j :: 0 <= j <= i && js[j].key == js[i].key && SilentFrom(js, j, i + 1, js[i].key)
            && js[i].now - js[j].now >= js[i].grace)
      || (js[i].key in onset && SilentFrom(js, 0, i + 1, js[i].key) && js[i].now - onset[js[i].key] >= js[i].grace)
  {
    hide SilentFrom, Play, Clock;
    var key := js[i].key;
    var before := js[..i];
    ClockIsPlayed(onset, before, key);
    if StatusOf(Play(onset, before), js[i]).Red? && Clock(onset, before, key).Some? {
      var j := ClockStarted(onset, before, key);
      SilentUpTo(js, if j < 0 then 0 else j, i, key);
    }
    if j :| 0 <= j < i && js[j].key == key && SilentFrom(js, j, i + 1, key) && js[i].now - js[j].now >= js[i].grace {
      SilentUpTo(js, j, i, key);
      ClockRuns(onset, before, key, j);
    }
    if key in onset && SilentFrom(js, 0, i + 1, key) {
      SilentUpTo(js, 0, i, key);
      ClockRuns(onset, before, key, 0);
    }
    SilentUpTo(js, i, i, key);
  }

  /** Any settling, unknown, gated or met evaluation buys the claim a whole
      fresh grace window. */
  lemma ResetHoldsRedOff(onset: map<string, int>, js: seq<Judgement>, k: nat, i: nat)
    requires Forward(onset, js) && k <= i < |js|
    requires js[k].key == js[i].key && !js[k].evidence.Silent?
    requires 0 < js[i].grace && IsDuration(js[i].grace)
    requires js[i].now - js[k].now < js[i].grace
    ensures !StatusOf(Play(onset, js[..i]), js[i]).Red?
  {
    RedExactly(onset, js, i);
    assert !SilentFrom(js, 0, i + 1, js[i].key);
    forall j | 0 <= j <= i && SilentFrom(js, j, i + 1, js[i].key) ensures js[j].now >= js[k].now {}
  }
}
