/** Staleness demotion of a collector estate reading
    (internal/estate/staleness.go). Instants and durations are integers of
    nanoseconds; a `time.Duration` is 64 bits wide, so the product that makes
    the horizon wraps and the difference of two instants saturates. */
module Staleness {
  import opened Base
  import opened Replicas
  import opened Topologies

  datatype Cause = Reported(text: string) | NoCadence | TooOld(age: int, horizon: int)

  /** One reading kind on a collector: carried with a payload, or not. Both
      say as of when. */
  datatype Reading<+P> =
    | Seen(asOf: int, payload: P)
    | Unseen(asOf: int, cause: Cause)

  datatype ComponentHealth = ComponentHealth(healthy: bool, status: string, lastError: string, components: seq<(string, ComponentHealth)>)

  datatype DeliveryState = DeliveryUnset | DeliveryApplying | DeliveryApplied | DeliveryFailed

  datatype Delivery = Delivery(state: DeliveryState, configHash: string, error: string)

  datatype Collector = Collector(
    identity: Attributes,
    effective: Reading<seq<Pipeline>>,
    health: Reading<ComponentHealth>,
    delivery: Reading<Delivery>)

  /** `cadence` is the declaration's refresh cadence, a 64-bit duration. */
  datatype Estate = Estate(cadence: int, collectors: seq<Collector>)

  const STALE_TOLERANCE := 3
  const MAX_DURATION := 0x7FFF_FFFF_FFFF_FFFF
  const MIN_DURATION := -0x8000_0000_0000_0000

  predicate IsDuration(d: int) {
    MIN_DURATION <= d <= MAX_DURATION
  }

  /** 64-bit two's complement wrap-around. */
  function Wrap(x: int): (r: int)
    ensures IsDuration(r)
    ensures IsDuration(x) ==> r == x
  {
    (x - MIN_DURATION) % 0x1_0000_0000_0000_0000 + MIN_DURATION
  }

  /** `now.Sub(asOf)`. */
  function Sub(now: int, asOf: int): (r: int)
    ensures IsDuration(r)
  {
    var d := now - asOf;
    if d > MAX_DURATION then MAX_DURATION else if d < MIN_DURATION then MIN_DURATION else d
  }

  function Horizon(cadence: int): Option<int> {
    if cadence <= 0 then None else Some(Wrap(cadence * STALE_TOLERANCE))
  }

  function StaleCause(cadence: int, now: int, asOf: int): Option<Cause> {
    match Horizon(cadence)
    case None => Some(NoCadence)
    case Some(horizon) =>
      var age := Sub(now, asOf);
      if age <= horizon then None else Some(TooOld(age, horizon))
  }

  function Demote<P>(r: Reading<P>, cadence: int, now: int): Reading<P> {
    match r
    case Unseen(_, _) => r
    case Seen(asOf, _) =>
      match StaleCause(cadence, now, asOf)
      case None => r
      case Some(cause) => Unseen(asOf, cause)
  }

  function CollectorForEvaluation(c: Collector, cadence: int, now: int): Collector {
    c.(effective := Demote(c.effective, cadence, now),
       health := Demote(c.health, cadence, now),
       delivery := Demote(c.delivery, cadence, now))
  }

  function ForEvaluation(e: Estate, now: int): (r: Estate)
    ensures r.cadence == e.cadence && |r.collectors| == |e.collectors|
    ensures forall i :: 0 <= i < |e.collectors| ==>
      r.collectors[i] == CollectorForEvaluation(e.collectors[i], e.cadence, now)
  {
    e.(collectors := seq(|e.collectors|, i requires 0 <= i < |e.collectors| =>
      CollectorForEvaluation(e.collectors[i], e.cadence, now)))
  }

  /** The copy whose three readings are overwritten one after the other. */
  method CollectorForEvaluationInPlace(c: Collector, cadence: int, now: int) returns (out: Collector)
    ensures out == CollectorForEvaluation(c, cadence, now)
  {
    out := c;
    if c.effective.Seen? {
      var cause := StaleCause(cadence, now, c.effective.asOf);
      if cause.Some? { out := out.(effective := Unseen(c.effective.asOf, cause.value)); }
    }
    if c.health.Seen? {
      var cause := StaleCause(cadence, now, c.health.asOf);
      if cause.Some? { out := out.(health := Unseen(c.health.asOf, cause.value)); }
    }
    if c.delivery.Seen? {
      var cause := StaleCause(cadence, now, c.delivery.asOf);
      if cause.Some? { out := out.(delivery := Unseen(c.delivery.asOf, cause.value)); }
    }
  }

  /** The new slice, filled by index. The estate read from is a value and
      keeps its own collectors. */
  method ForEvaluationLoop(e: Estate, now: int) returns (out: Estate)
    ensures out == ForEvaluation(e, now)
  {
    var collectors := new Collector[|e.collectors|](i requires 0 <= i < |e.collectors| => e.collectors[i]);
    for i := 0 to |e.collectors|
      invariant forall k :: 0 <= k < i ==> collectors[k] == CollectorForEvaluation(e.collectors[k], e.cadence, now)
      modifies collectors
    {
      collectors[i] := CollectorForEvaluationInPlace(e.collectors[i], e.cadence, now);
    }
    assert collectors[..] == ForEvaluation(e, now).collectors;
    out := e.(collectors := collectors[..]);
  }

  /** A reading taken at `asOf` may feed a verdict at `now`: a cadence is
      declared and no more than three of them have gone by. */
  predicate Fresh(cadence: int, now: int, asOf: int) {
    0 < cadence && now - asOf <= 3 * cadence
  }

  lemma WrapIsExact(x: int)
    ensures Wrap(x) == x <==> IsDuration(x)
  {
  }

  /** A cadence is judged by that rule at every two instants exactly when it is
      at most a third of the duration range: beyond that the product wraps. One
      that is not positive demotes everything, for want of a cadence. */
  lemma FreshExactly(cadence: int)
    ensures (forall now, asOf :: StaleCause(cadence, now, asOf).None? <==> Fresh(cadence, now, asOf))
      <==> cadence <= MAX_DURATION / 3
    ensures cadence <= 0 <==> forall now, asOf :: StaleCause(cadence, now, asOf) == Some(NoCadence)
  {
    WrapIsExact(cadence * STALE_TOLERANCE);
    var horizon := Wrap(cadence * STALE_TOLERANCE);
    hide Wrap;
    if cadence > 0 { assert StaleCause(cadence, 0, 0) != Some(NoCadence); }
    if cadence > MAX_DURATION / 3 {
      assert horizon < 3 * cadence;
      var age := if horizon < 0 then 0 else if horizon == MAX_DURATION then 3 * cadence + 1 else horizon + 1;
      assert Fresh(cadence, age, 0) <==> horizon != MAX_DURATION;
      assert StaleCause(cadence, age, 0).None? <==> horizon == MAX_DURATION;
    }
  }

  /** And the horizon is three cadences on exactly the same ones. */
  lemma HorizonIsThreeCadencesExactly(cadence: int)
    requires 0 < cadence
    ensures Horizon(cadence) == Some(3 * cadence) <==> cadence <= MAX_DURATION / 3
  {
    WrapIsExact(cadence * STALE_TOLERANCE);
  }

  /** A positive cadence demotes a reading taken this very instant exactly when
      the product wraps to a negative horizon. */
  lemma NewestIsDemotedExactly(cadence: int, now: int)
    requires 0 < cadence
    ensures StaleCause(cadence, now, now).Some? <==> Wrap(cadence * STALE_TOLERANCE) < 0
  {
    hide Wrap;
  }

  /** Past the bound some cadences do that and some do not. */
  lemma HugeCadencesDiffer(now: int)
    ensures StaleCause(MAX_DURATION / 3 + 1, now, now).Some?
    ensures StaleCause(MAX_DURATION, now, now).None?
  {
    NewestIsDemotedExactly(MAX_DURATION / 3 + 1, now);
    NewestIsDemotedExactly(MAX_DURATION, now);
    assert Wrap((MAX_DURATION / 3 + 1) * STALE_TOLERANCE) < 0;
    assert Wrap(MAX_DURATION * STALE_TOLERANCE) == MAX_DURATION - 2;
  }

  /** Demoting twice at one instant is demoting once, and a reading demoted
      at one instant is demoted at every later one. */
  lemma DemotionIsFinal<P>(r: Reading<P>, cadence: int, now: int, later: int)
    requires now <= later
    ensures Demote(Demote(r, cadence, now), cadence, now) == Demote(r, cadence, now)
    ensures Demote(r, cadence, now).Unseen? ==> Demote(r, cadence, later).Unseen?
    ensures Demote(r, cadence, now).asOf == r.asOf
    ensures Demote(r, cadence, now).Seen? ==> Demote(r, cadence, now) == r
  {
  }

  /** What demotion makes of one reading: nothing of one already unseen; of a
      seen one the cause, without a cadence or past three of them, and the
      reading itself otherwise. */
  ghost predicate DemotesTo<P>(was: Reading<P>, now_: Reading<P>, cadence: int, now: int) {
    match was
    case Unseen(_, _) => now_ == was
    case Seen(asOf, payload) =>
      if cadence <= 0 then now_ == Unseen(asOf, NoCadence)
      else if now - asOf <= 3 * cadence then now_ == was
      else now_ == Unseen(asOf, TooOld(if now - asOf > MAX_DURATION then MAX_DURATION else now - asOf, 3 * cadence))
  }

  /** For a cadence whose triple fits a duration, a collector's three readings
      are each demoted on their own age, and its identity stands. */
  lemma CollectorDemotes(c: Collector, cadence: int, now: int)
    requires cadence <= MAX_DURATION / 3
    ensures var d := CollectorForEvaluation(c, cadence, now);
      && d.identity == c.identity
      && DemotesTo(c.effective, d.effective, cadence, now)
      && DemotesTo(c.health, d.health, cadence, now)
      && DemotesTo(c.delivery, d.delivery, cadence, now)
  {
    DemotesAsSaid(c.effective, cadence, now);
    DemotesAsSaid(c.health, cadence, now);
    DemotesAsSaid(c.delivery, cadence, now);
    hide Demote, DemotesTo;
  }

  lemma DemotesAsSaid<P>(r: Reading<P>, cadence: int, now: int)
    requires cadence <= MAX_DURATION / 3
    ensures DemotesTo(r, Demote(r, cadence, now), cadence, now)
  {
    if cadence > 0 { HorizonIsThreeCadencesExactly(cadence); }
    hide Wrap;
  }
}
