/** Version-stamped claims against requirements that moved
    (internal/drift/drift.go, claimDrift and passedClaimed). */
module ClaimDrift {
  import opened Base
  import opened References

  /** A config assertion, by name; what it demands is the checker's business. */
  type Assertion = string

  datatype Requirement = Requirement(version: int, config: Option<Assertion>)

  /** What a requirement's config assertion was at a version, for the versions
      history can resolve. */
  type History = map<(string, int), Option<Assertion>>

  /** `passes` is the shared checker run on the Blueprint's intended config. */
  datatype Inputs = Inputs(library: map<string, Requirement>, passes: Assertion -> bool, history: Option<History>)

  /** Without history, or where it cannot say, the stamp is trusted. */
  function PassedClaimed(in_: Inputs, c: Stamp): bool {
    if in_.history.None? || (c.requirement, c.version) !in in_.history.value then true
    else
      var was := in_.history.value[(c.requirement, c.version)];
      was.None? || in_.passes(was.value)
  }

  /** The claim names a config requirement that has moved past it. */
  predicate Behind(in_: Inputs, c: Stamp) {
    && c.requirement in in_.library
    && c.version < in_.library[c.requirement].version
    && in_.library[c.requirement].config.Some?
  }

  predicate PassesNow(in_: Inputs, c: Stamp)
    requires Behind(in_, c)
  {
    in_.passes(in_.library[c.requirement].config.value)
  }

  predicate Drifted(in_: Inputs, c: Stamp) {
    Behind(in_, c) && !PassesNow(in_, c) && PassedClaimed(in_, c)
  }

  predicate Nudged(in_: Inputs, c: Stamp) {
    Behind(in_, c) && PassesNow(in_, c)
  }

  /** A claim is drifted exactly when its requirement asserts config, has moved
      past the stamp and fails now, and nothing known says it failed then too;
      it is nudged exactly when that requirement passes. */
  lemma DriftedExactly(in_: Inputs, c: Stamp)
    ensures var moved := c.requirement in in_.library && in_.library[c.requirement].config.Some? && c.version < in_.library[c.requirement].version;
      && (Nudged(in_, c) <==> moved && in_.passes(in_.library[c.requirement].config.value))
      && (Drifted(in_, c) <==>
            && moved && !in_.passes(in_.library[c.requirement].config.value)
            && forall h, was :: in_.history == Some(h) && (c.requirement, c.version) in h && h[(c.requirement, c.version)] == Some(was)
                 ==> in_.passes(was))
  {
  }

  lemma NoneKept()
    ensures forall keep: Stamp -> bool :: Filter(keep, []) == []
  {
  }

  lemma FilterStep(keep: Stamp -> bool, claims: seq<Stamp>, i: nat)
    requires i < |claims|
    ensures Filter(keep, claims[..i + 1]) == Filter(keep, claims[..i]) + if keep(claims[i]) then [claims[i]] else []
  {
    assert claims[..i + 1] == claims[..i] + [claims[i]];
    FilterAppend(keep, claims[..i], [claims[i]]);
  }

  /** Both lists keep the order the claims are authored in. */
  method ClaimDriftLoop(in_: Inputs, satisfies: seq<Stamp>) returns (findings: seq<Stamp>, nudges: seq<Stamp>)
    ensures findings == Filter((c: Stamp) => Drifted(in_, c), satisfies)
    ensures nudges == Filter((c: Stamp) => Nudged(in_, c), satisfies)
  {
    hide PassedClaimed;
    findings, nudges := [], [];
    hide Filter;
    NoneKept();
    var drifted, nudged := (c: Stamp) => Drifted(in_, c), (c: Stamp) => Nudged(in_, c);
    for i := 0 to |satisfies|
      invariant findings == Filter(drifted, satisfies[..i])
      invariant nudges == Filter(nudged, satisfies[..i])
    {
      var c := satisfies[i];
      FilterStep(drifted, satisfies, i);
      FilterStep(nudged, satisfies, i);
      if c.requirement !in in_.library { continue; }
      var req := in_.library[c.requirement];
      if c.version >= req.version || req.config.None? { continue; }
      if in_.passes(req.config.value) {
        nudges := nudges + [c];
      } else if PassedClaimed(in_, c) {
        findings := findings + [c];
      }
    }
    assert satisfies[..|satisfies|] == satisfies;
  }

  /** Reading the history can only clear a drifted claim, and only on a text
      that failed then too; the nudges are the same with it and without. */
  lemma HistoryOnlyAcquits(in_: Inputs, h: History, c: Stamp)
    ensures var trusted, checked := in_.(history := None), in_.(history := Some(h));
            && (Drifted(checked, c) ==> Drifted(trusted, c))
            && (Nudged(checked, c) <==> Nudged(trusted, c))
            && (Drifted(trusted, c) && !Drifted(checked, c) <==>
                  Behind(in_, c) && !PassesNow(in_, c) && (c.requirement, c.version) in h
                  && h[(c.requirement, c.version)].Some? && !in_.passes(h[(c.requirement, c.version)].value))
  {
  }
}
