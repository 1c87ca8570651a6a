/** Claims, their keys, and the derived sets of them
    (internal/expectation/expectation.go). */
module Expectation {
  import opened Base
  import opened Verdicts

  datatype Shape = Identified | Unidentified

  /** One checkable assertion. The component kind is the string the source
      joins telemetry on. */
  datatype Claim =
    | Arrival(sha: string, service: string, environment: string, signal: Signal, tiers: seq<string>)
    | Enrichment(sha: string, service: string, environment: string, signal: Signal,
                 attribute: string, value: string, tiers: seq<string>)
    | SelfTelemetry(sha: string, tier: string, componentKind: string, component: string, shape: Shape)

  datatype Set = Set(sha: string, claims: seq<Claim>)

  function SignalName(s: Signal): string {
    match s
    case Logs => "logs"
    case Metrics => "metrics"
    case Traces => "traces"
  }

  function ShapeName(c: Claim): string {
    if !c.SelfTelemetry? then "" else if c.shape.Identified? then "identified" else "unidentified"
  }

  function Key(c: Claim): string {
    match c
    case Arrival(_, service, environment, signal, _) =>
      "arrival" + "|" + (service + "|" + (environment + "|" + SignalName(signal)))
    case Enrichment(_, service, environment, signal, attribute, _, _) =>
      "enrichment" + "|" + (service + "|" + (environment + "|" + (SignalName(signal) + "|" + attribute)))
    case SelfTelemetry(_, tier, kind, component, _) =>
      "self_telemetry" + "|" + (tier + "|" + (kind + "|" + component))
  }

  function Identity(c: Claim): string {
    Key(c) + "|" + (if c.Enrichment? then c.value else "") + "|" + ShapeName(c)
  }

  // ---- keys name what a claim is about -----------------------------------

  /** The ids a key is built from carry no separator. */
  predicate PipeFree(c: Claim) {
    if c.SelfTelemetry? then '|' !in c.tier && '|' !in c.componentKind
    else '|' !in c.service && '|' !in c.environment
  }

  /** The two claims are about one thing. */
  predicate SameSubject(c: Claim, d: Claim) {
    match c
    case Arrival(_, s, e, g, _) => d.Arrival? && d.service == s && d.environment == e && d.signal == g
    case Enrichment(_, s, e, g, a, _, _) =>
      d.Enrichment? && d.service == s && d.environment == e && d.signal == g && d.attribute == a
    case SelfTelemetry(_, t, k, m, _) => d.SelfTelemetry? && d.tier == t && d.componentKind == k && d.component == m
  }

  lemma {:induction false} SplitAtPipe(a: string, b: string, x: string, y: string)
    requires '|' !in a && '|' !in b
    requires a + "|" + x == b + "|" + y
    ensures a == b && x == y
  {
    var s, t := a + "|" + x, b + "|" + y;
    assert s[0] == if a == "" then '|' else a[0];
    assert t[0] == if b == "" then '|' else b[0];
    if a != "" && b != "" {
      assert s[1..] == a[1..] + "|" + x;
      assert t[1..] == b[1..] + "|" + y;
      SplitAtPipe(a[1..], b[1..], x, y);
      assert a == [a[0]] + a[1..] && b == [b[0]] + b[1..];
    } else {
      assert x == s[1..] && y == t[1..];
    }
  }

  function Head(c: Claim): string {
    if c.Arrival? then "arrival" else if c.Enrichment? then "enrichment" else "self_telemetry"
  }

  function Tail(c: Claim): string {
    match c
    case Arrival(_, s, e, g, _) => s + "|" + (e + "|" + SignalName(g))
    case Enrichment(_, s, e, g, a, _, _) => s + "|" + (e + "|" + (SignalName(g) + "|" + a))
    case SelfTelemetry(_, t, k, m, _) => t + "|" + (k + "|" + m)
  }

  lemma SignalNames(g: Signal, h: Signal)
    ensures '|' !in SignalName(g)
    ensures SignalName(g) == SignalName(h) ==> g == h
  {
  }

  lemma HeadsDiffer(c: Claim, d: Claim)
    ensures '|' !in Head(c)
    ensures Head(c) == Head(d) ==> (c.Arrival? <==> d.Arrival?) && (c.Enrichment? <==> d.Enrichment?)
  {
  }

  lemma TailsAgree(c: Claim, d: Claim)
    requires PipeFree(c) && PipeFree(d)
    requires (c.Arrival? <==> d.Arrival?) && (c.Enrichment? <==> d.Enrichment?)
    requires Tail(c) == Tail(d)
    ensures SameSubject(c, d)
  {
    hide SignalName;
    match c
    case Arrival(_, s, e, g, _) =>
      SplitAtPipe(s, d.service, e + "|" + SignalName(g), d.environment + "|" + SignalName(d.signal));
      SplitAtPipe(e, d.environment, SignalName(g), SignalName(d.signal));
      SignalNames(g, d.signal);
    case Enrichment(_, s, e, g, a, _, _) =>
      SplitAtPipe(s, d.service, e + "|" + (SignalName(g) + "|" + a), d.environment + "|" + (SignalName(d.signal) + "|" + d.attribute));
      SplitAtPipe(e, d.environment, SignalName(g) + "|" + a, SignalName(d.signal) + "|" + d.attribute);
      SignalNames(g, d.signal);
      SignalNames(d.signal, g);
      SplitAtPipe(SignalName(g), SignalName(d.signal), a, d.attribute);
    case SelfTelemetry(_, t, k, m, _) =>
      SplitAtPipe(t, d.tier, k + "|" + m, d.componentKind + "|" + d.component);
      SplitAtPipe(k, d.componentKind, m, d.component);
  }

  /** Claims about one thing share a key, and with separator-free ids only
      they do. */
  lemma KeysNameSubjects(c: Claim, d: Claim)
    ensures SameSubject(c, d) ==> Key(c) == Key(d)
    ensures PipeFree(c) && PipeFree(d) && Key(c) == Key(d) ==> SameSubject(c, d)
  {
    assert Key(c) == Head(c) + "|" + Tail(c);
    assert Key(d) == Head(d) + "|" + Tail(d);
    if PipeFree(c) && PipeFree(d) && Key(c) == Key(d) {
      HeadsDiffer(c, d);
      HeadsDiffer(d, c);
      SplitAtPipe(Head(c), Head(d), Tail(c), Tail(d));
      TailsAgree(c, d);
    }
  }

  /** Whatever the ids hold, two keys are equal exactly when the claims are of
      one kind and the ids behind them join to one text. */
  lemma KeysEqualExactly(c: Claim, d: Claim)
    ensures Key(c) == Key(d) <==> (c.Arrival? <==> d.Arrival?) && (c.Enrichment? <==> d.Enrichment?) && Tail(c) == Tail(d)
  {
    assert Key(c) == Head(c) + "|" + Tail(c);
    assert Key(d) == Head(d) + "|" + Tail(d);
    hide Key, Tail;
    if Key(c) == Key(d) {
      HeadsDiffer(c, d);
      HeadsDiffer(d, c);
      SplitAtPipe(Head(c), Head(d), Tail(c), Tail(d));
    }
  }

  /** A row as it stands inside a key. */
  function RowText(service: string, environment: string): string {
    service + "|" + environment
  }

  lemma {:induction false} SplitAtLastPipe(a: string, b: string, x: string, y: string)
    requires '|' !in x && '|' !in y
    requires a + "|" + x == b + "|" + y
    ensures a == b && x == y
  {
    var s, t := a + "|" + x, b + "|" + y;
    assert s[|s| - 1] == if x == "" then '|' else x[|x| - 1];
    assert t[|t| - 1] == if y == "" then '|' else y[|y| - 1];
    if x != "" && y != "" {
      assert s[..|s| - 1] == a + "|" + x[..|x| - 1];
      assert t[..|t| - 1] == b + "|" + y[..|y| - 1];
      SplitAtLastPipe(a, b, x[..|x| - 1], y[..|y| - 1]);
      assert x == x[..|x| - 1] + [x[|x| - 1]] && y == y[..|y| - 1] + [y[|y| - 1]];
    } else {
      assert a == s[..|s| - 1] && b == t[..|t| - 1];
    }
  }

  /** For arrival claims that text is the row and the signal. */
  lemma ArrivalKeysEqualExactly(c: Claim, d: Claim)
    requires c.Arrival? && d.Arrival?
    ensures Key(c) == Key(d) <==>
      RowText(c.service, c.environment) == RowText(d.service, d.environment) && c.signal == d.signal
  {
    assert Tail(c) == RowText(c.service, c.environment) + "|" + SignalName(c.signal);
    assert Tail(d) == RowText(d.service, d.environment) + "|" + SignalName(d.signal);
    KeysEqualExactly(c, d);
    hide Key, Tail, SignalName;
    SignalNames(c.signal, d.signal);
    SignalNames(d.signal, c.signal);
    if Key(c) == Key(d) {
      SplitAtLastPipe(RowText(c.service, c.environment), RowText(d.service, d.environment),
                      SignalName(c.signal), SignalName(d.signal));
    }
  }

  /** In one Environment the text tells Services apart. */
  lemma RowTextsInOneEnvironment(service: string, other: string, environment: string)
    ensures RowText(service, environment) == RowText(other, environment) ==> service == other
  {
    var s, t := RowText(service, environment), RowText(other, environment);
    if s == t {
      assert |service| == |other|;
      assert service == s[..|service|] && other == t[..|other|];
    }
  }

  /** The texts the console and the memo print. */
  lemma KeyTexts(service: string, environment: string, tier: string, kind: string, attribute: string, component: string)
    ensures forall sha, tiers ::
      Key(Arrival(sha, service, environment, Traces, tiers)) == "arrival|" + service + "|" + environment + "|traces"
    ensures forall sha, value, tiers ::
      Key(Enrichment(sha, service, environment, Logs, attribute, value, tiers)) == "enrichment|" + service + "|" + environment + "|logs|" + attribute
    ensures forall sha, shape ::
      Key(SelfTelemetry(sha, tier, kind, component, shape)) == "self_telemetry|" + tier + "|" + kind + "|" + component
    ensures SignalName(Metrics) == "metrics"
  {
  }

  /** And what tells two claims under one key apart. */
  lemma IdentityTexts()
    ensures forall c: Claim | c.Enrichment? :: Identity(c) == Key(c) + "|" + c.value + "|"
    ensures forall c: Claim | c.Arrival? :: Identity(c) == Key(c) + "||"
    ensures forall c: Claim | c.SelfTelemetry? && c.shape == Identified :: Identity(c) == Key(c) + "||identified"
    ensures forall c: Claim | c.SelfTelemetry? && c.shape == Unidentified :: Identity(c) == Key(c) + "||unidentified"
  {
    hide Key;
  }

  // ---- projections of a set ----------------------------------------------

  predicate OnTier(c: Claim, tier: string) {
    c.SelfTelemetry? && c.tier == tier
  }

  predicate OnRow(c: Claim, service: string, environment: string) {
    !c.SelfTelemetry? && c.service == service && c.environment == environment
  }

  function ForTier(claims: seq<Claim>, tier: string): (r: seq<Claim>)
    ensures forall c :: c in r <==> c in claims && OnTier(c, tier)
  {
    if claims == [] then []
    else
      var n := |claims| - 1;
      assert claims == claims[..n] + [claims[n]];
      ForTier(claims[..n], tier) + if OnTier(claims[n], tier) then [claims[n]] else []
  }

  function ForRow(claims: seq<Claim>, service: string, environment: string): (r: seq<Claim>)
    ensures forall c :: c in r <==> c in claims && OnRow(c, service, environment)
  {
    if claims == [] then []
    else
      var n := |claims| - 1;
      assert claims == claims[..n] + [claims[n]];
      ForRow(claims[..n], service, environment) + if OnRow(claims[n], service, environment) then [claims[n]] else []
  }

  method ForTierLoop(s: Set, tier: string) returns (out: seq<Claim>)
    ensures out == ForTier(s.claims, tier)
  {
    out := [];
    for i := 0 to |s.claims|
      invariant out == ForTier(s.claims[..i], tier)
    {
      assert s.claims[..i + 1][..i] == s.claims[..i];
      if OnTier(s.claims[i], tier) { out := out + [s.claims[i]]; }
    }
    assert s.claims[..|s.claims|] == s.claims;
  }

  method ForRowLoop(s: Set, service: string, environment: string) returns (out: seq<Claim>)
    ensures out == ForRow(s.claims, service, environment)
  {
    out := [];
    for i := 0 to |s.claims|
      invariant out == ForRow(s.claims[..i], service, environment)
    {
      assert s.claims[..i + 1][..i] == s.claims[..i];
      if OnRow(s.claims[i], service, environment) { out := out + [s.claims[i]]; }
    }
    assert s.claims[..|s.claims|] == s.claims;
  }

  /** The attributes one row's reading must measure for one signal: every
      claimed one, once, in order. */
  method RowAttributes(s: Set, service: string, environment: string, kind: Signal) returns (out: seq<string>)
    ensures Increasing(Less, out)
    ensures forall a :: a in out <==>
      exists c :: c in s.claims && OnRow(c, service, environment) && c.Enrichment? && c.signal == kind && c.attribute == a
  {
    var row := ForRowLoop(s, service, environment);
    out := [];
    var seen: set<string> := {};
    for i := 0 to |row|
      invariant forall a :: a in seen <==> a in out
      invariant Distinct(out)
      invariant forall a :: a in out <==>
        exists k :: 0 <= k < i && row[k].Enrichment? && row[k].signal == kind && row[k].attribute == a
    {
      var c := row[i];
      if c.Enrichment? && c.signal == kind && c.attribute !in seen {
        seen := seen + {c.attribute};
        out := out + [c.attribute];
      }
    }
    forall a ensures a in out <==>
        exists c :: c in s.claims && OnRow(c, service, environment) && c.Enrichment? && c.signal == kind && c.attribute == a
    {
      if a in out {
        var k :| 0 <= k < |row| && row[k].Enrichment? && row[k].signal == kind && row[k].attribute == a;
        assert row[k] in row;
      }
      if c :| c in s.claims && OnRow(c, service, environment) && c.Enrichment? && c.signal == kind && c.attribute == a {
        assert c in row;
      }
    }
    StringOrder();
    SortDistinct(Less, out);
    SortMembers(Less, out);
    out := Sort(Less, out);
  }

  // ---- the difference between two sets -----------------------------------

  datatype Delta = Delta(added: seq<Claim>, removed: seq<Claim>)

  function Identities(claims: seq<Claim>): set<string> {
    if claims == [] then {} else Identities(claims[..|claims| - 1]) + {Identity(claims[|claims| - 1])}
  }

  /** The claims whose identity is not among `ids`, order kept. */
  function Missing(claims: seq<Claim>, ids: set<string>): seq<Claim> {
    if claims == [] then []
    else
      var n := |claims| - 1;
      Missing(claims[..n], ids) + if Identity(claims[n]) in ids then [] else [claims[n]]
  }

  function Diff(before: Set, after: Set): Delta {
    Delta(Missing(after.claims, Identities(before.claims)), Missing(before.claims, Identities(after.claims)))
  }

  method DiffLoop(before: Set, after: Set) returns (d: Delta)
    ensures d == Diff(before, after)
  {
    hide Identity;
    var old_: map<string, Claim> := map[];
    for i := 0 to |before.claims|
      invariant old_.Keys == Identities(before.claims[..i])
    {
      assert before.claims[..i + 1][..i] == before.claims[..i];
      old_ := old_[Identity(before.claims[i]) := before.claims[i]];
    }
    assert before.claims[..|before.claims|] == before.claims;
    var added: seq<Claim>, removed: seq<Claim>, seen: set<string> := [], [], {};
    for i := 0 to |after.claims|
      invariant seen == Identities(after.claims[..i])
      invariant added == Missing(after.claims[..i], Identities(before.claims))
    {
      assert after.claims[..i + 1][..i] == after.claims[..i];
      seen := seen + {Identity(after.claims[i])};
      if Identity(after.claims[i]) !in old_ { added := added + [after.claims[i]]; }
    }
    assert after.claims[..|after.claims|] == after.claims;
    for i := 0 to |before.claims|
      invariant removed == Missing(before.claims[..i], Identities(after.claims))
    {
      assert before.claims[..i + 1][..i] == before.claims[..i];
      if Identity(before.claims[i]) !in seen { removed := removed + [before.claims[i]]; }
    }
    d := Delta(added, removed);
  }

  /** Claims that share a key are one claim for the difference exactly when they
      write one value and expect one shape. */
  lemma IdentitiesEqualExactly(c: Claim, d: Claim)
    requires Key(c) == Key(d)
    ensures Identity(c) == Identity(d) <==>
      && (c.Enrichment? && d.Enrichment? ==> c.value == d.value)
      && (c.SelfTelemetry? && d.SelfTelemetry? ==> c.shape == d.shape)
  {
    var v, w := if c.Enrichment? then c.value else "", if d.Enrichment? then d.value else "";
    KeysEqualExactly(c, d);
    ShapeNames(c, d);
    assert Identity(c) == Key(c) + "|" + v + "|" + ShapeName(c);
    assert Identity(d) == Key(d) + "|" + w + "|" + ShapeName(d);
    hide Key, Tail, Identity, ShapeName;
    if Identity(c) == Identity(d) {
      SplitAtLastPipe(Key(c) + "|" + v, Key(d) + "|" + w, ShapeName(c), ShapeName(d));
      assert v == (Key(c) + "|" + v)[|Key(c)| + 1..];
      assert w == (Key(d) + "|" + w)[|Key(d)| + 1..];
    }
  }

  lemma ShapeNames(c: Claim, d: Claim)
    ensures '|' !in ShapeName(c) && '|' !in ShapeName(d)
    ensures c.SelfTelemetry? && d.SelfTelemetry? ==> (ShapeName(c) == ShapeName(d) <==> c.shape == d.shape)
    ensures !c.SelfTelemetry? && !d.SelfTelemetry? ==> ShapeName(c) == ShapeName(d)
  {
  }

  lemma {:induction false} IdentitiesAre(claims: seq<Claim>, id: string)
    ensures id in Identities(claims) <==> exists c :: c in claims && Identity(c) == id
  {
    hide Identity;
    if claims != [] {
      var n := |claims| - 1;
      assert claims == claims[..n] + [claims[n]];
      IdentitiesAre(claims[..n], id);
      if id == Identity(claims[n]) { assert claims[n] in claims; }
    }
  }

  /** The identities left after filtering are the ones not filtered out. */
  lemma {:induction false} IdentitiesMissing(claims: seq<Claim>, ids: set<string>)
    ensures Identities(Missing(claims, ids)) == Identities(claims) - ids
  {
    hide Identity;
    if claims != [] {
      var n := |claims| - 1;
      IdentitiesMissing(claims[..n], ids);
      var kept := Missing(claims[..n], ids);
      var m := kept + [claims[n]];
      assert m[..|m| - 1] == kept;
      assert Identities(m) == Identities(kept) + {Identity(claims[n])};
      assert Missing(claims, ids) == if Identity(claims[n]) in ids then kept else m;
    }
  }

  /** Taking what was removed away and putting what was added in gives the
      claims after; nothing both added and removed; and the difference the
      other way round is the same one swapped. */
  lemma DiffPatches(before: Set, after: Set)
    ensures var d := Diff(before, after);
            && (Identities(before.claims) - Identities(d.removed)) + Identities(d.added) == Identities(after.claims)
            && Identities(d.added) !! Identities(before.claims)
            && Identities(d.removed) !! Identities(after.claims)
            && Diff(after, before) == Delta(d.removed, d.added)
  {
    hide Identity;
    IdentitiesMissing(after.claims, Identities(before.claims));
    IdentitiesMissing(before.claims, Identities(after.claims));
  }

  /** Nothing to report exactly when the two sets claim the same things. */
  lemma EmptyDiffExactly(before: Set, after: Set)
    ensures Diff(before, after) == Delta([], []) <==> Identities(before.claims) == Identities(after.claims)
  {
    hide Identity;
    var d := Diff(before, after);
    IdentitiesMissing(after.claims, Identities(before.claims));
    IdentitiesMissing(before.claims, Identities(after.claims));
    if d.added != [] { IdentitiesAre(d.added, Identity(d.added[0])); }
    if d.removed != [] { IdentitiesAre(d.removed, Identity(d.removed[0])); }
  }
}
