/** The authoring model: Components, the Blueprints that compose them, and how
    a reference finds its Component (internal/blueprint/blueprint.go). */
module Blueprints {
  import opened Base
  import opened Verdicts
  import opened References

  datatype Class = Receiver | Processor | Exporter | Connector | Extension

  datatype Insertion = Insertion(key: string, value: string)

  /** `inserts` is what the Component's configuration literally writes, with
      constant values, onto each signal it can stand in. */
  datatype Component = Component(
    team: string,
    name: string,
    version: int,
    class_: Class,
    type_: string,
    inserts: map<Signal, seq<Insertion>>)

  /** The id an instance renders under. */
  function RenderedID(c: Component): string {
    if c.team == "" then c.type_ + "/" + c.name else c.type_ + "/" + c.team + "." + c.name
  }

  /** The four signal lanes and the extensions block, as parsed references. */
  datatype Blueprint = Blueprint(
    id: string,
    locals: seq<Component>,
    traces: seq<Reference>,
    metrics: seq<Reference>,
    logs: seq<Reference>,
    profiles: seq<Reference>,
    extensions: seq<Reference>)

  datatype Lane = TracesLane | MetricsLane | LogsLane | ProfilesLane | ExtensionsLane

  /** Signals in serialisation order. */
  const SIGNAL_LANES: seq<Lane> := [TracesLane, MetricsLane, LogsLane, ProfilesLane]

  /** And the extensions block after them. */
  const LANES: seq<Lane> := [TracesLane, MetricsLane, LogsLane, ProfilesLane, ExtensionsLane]

  function Entries(b: Blueprint, lane: Lane): seq<Reference> {
    match lane
    case TracesLane => b.traces
    case MetricsLane => b.metrics
    case LogsLane => b.logs
    case ProfilesLane => b.profiles
    case ExtensionsLane => b.extensions
  }

  /** The shared Components, by team-qualified id. */
  type Shared = map<string, Component>

  function FindLocal(locals: seq<Component>, name: string): Option<Component> {
    if locals == [] then None
    else if locals[0].name == name then Some(locals[0])
    else FindLocal(locals[1..], name)
  }

  /** The Blueprint's own locals for a bare name, the shared Components
      otherwise. */
  function Resolve(shared: Shared, b: Blueprint, r: Reference): Option<Component> {
    if r.Local() then FindLocal(b.locals, r.name)
    else if r.ID() in shared then Some(shared[r.ID()])
    else None
  }

  // ---- what a reference finds ---------------------------------------------

  /** A bare name finds the first local of that name, a qualified one the shared
      Component of that id. */
  ghost predicate Finds(shared: Shared, b: Blueprint, r: Reference, m: Component) {
    if r.team == "" then
      exists k :: 0 <= k < |b.locals| && b.locals[k] == m && m.name == r.name && forall j :: 0 <= j < k ==> b.locals[j].name != r.name
    else r.team + "/" + r.name in shared && shared[r.team + "/" + r.name] == m
  }

  lemma {:induction false} LocalIsFirst(locals: seq<Component>, name: string, m: Component)
    ensures FindLocal(locals, name) == Some(m) <==>
      exists k :: 0 <= k < |locals| && locals[k] == m && m.name == name && forall j :: 0 <= j < k ==> locals[j].name != name
  {
    if locals != [] {
      LocalIsFirst(locals[1..], name, m);
      if FindLocal(locals[1..], name) == Some(m) && locals[0].name != name {
        var k :| 0 <= k < |locals[1..]| && locals[1..][k] == m && forall j :: 0 <= j < k ==> locals[1..][j].name != name;
        assert locals[k + 1] == m;
        forall j | 0 <= j < k + 1 ensures locals[j].name != name { if j > 0 { assert locals[1..][j - 1] == locals[j]; } }
      }
      if k :| 0 <= k < |locals| && locals[k] == m && m.name == name && forall j :: 0 <= j < k ==> locals[j].name != name {
        if k > 0 { assert locals[1..][k - 1] == m; }
      }
    }
  }

  lemma FindsIs(shared: Shared, b: Blueprint, r: Reference, m: Component)
    ensures Resolve(shared, b, r) == Some(m) <==> Finds(shared, b, r, m)
  {
    LocalIsFirst(b.locals, r.name, m);
  }
}
