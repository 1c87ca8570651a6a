/** The Schema Registry record, the schema-conformance requirement and the
    evidence one row is judged on. */
module SchemaModel {
  import opened Base
  import opened Verdicts

  datatype Level = Required | ConditionallyRequired | Recommended | OptIn

  /** Strictest first. */
  const LEVELS: seq<Level> := [Required, ConditionallyRequired, Recommended, OptIn]

  function Rank(l: Level): nat {
    match l
    case Required => 0
    case ConditionallyRequired => 1
    case Recommended => 2
    case OptIn => 3
  }

  function GradeOf(l: Level): Grade {
    match l
    case Required => Violation
    case ConditionallyRequired => Advisory
    case Recommended => Advisory
    case OptIn => Neutral
  }

  datatype GroupKind = AttributeGroup | SpanGroup | EventGroup | MetricGroup | ResourceGroup | EntityGroup | ScopeGroup

  datatype Member = Member(id: string, value: string)

  /** An entry defines an attribute (`id`) or references one (`ref`). `level`
      is None when the file declares none or one outside the vocabulary. */
  datatype Attribute = Attribute(id: string, ref: string, members: seq<Member>, level: Option<Level>)
  {
    function Key(): string { if id != "" then id else ref }

    predicate Defines() { id != "" }

    function DeclaredLevel(): Level { if level.None? then Recommended else level.value }
  }

  datatype Group = Group(id: string, kind: GroupKind, metricName: string, attributes: seq<Attribute>)

  datatype Registry = Registry(version: string, groups: seq<Group>)
  {
    /** The lookup table keeps the last group indexed under an id. */
    function FindGroup(id: string): (r: Option<Group>)
      ensures r.Some? ==> r.value in groups && r.value.id == id
      ensures r.None? ==> forall g :: g in groups ==> g.id != id
    {
      FindGroupIn(groups, id)
    }

    /** Likewise for attribute definitions; the group's id travels along. */
    function FindAttribute(id: string): (r: Option<(Attribute, string)>)
      ensures r.Some? ==> r.value.0.Defines() && r.value.0.id == id
      ensures r.Some? ==> exists g :: g in groups && g.id == r.value.1 && r.value.0 in g.attributes
      ensures r.None? ==> forall g, a :: g in groups && a in g.attributes && a.Defines() ==> a.id != id
    {
      FindAttributeIn(groups, id)
    }
  }

  function FindGroupIn(groups: seq<Group>, id: string): (r: Option<Group>)
    ensures r.Some? ==> r.value in groups && r.value.id == id
    ensures r.None? ==> forall g :: g in groups ==> g.id != id
  {
    if groups == [] then None
    else
      var last := groups[|groups| - 1];
      if last.id == id then Some(last) else FindGroupIn(groups[..|groups| - 1], id)
  }

  function FindDefinition(attributes: seq<Attribute>, id: string): (r: Option<Attribute>)
    ensures r.Some? ==> r.value in attributes && r.value.Defines() && r.value.id == id
    ensures r.None? ==> forall a :: a in attributes && a.Defines() ==> a.id != id
  {
    if attributes == [] then None
    else
      var last := attributes[|attributes| - 1];
      if last.Defines() && last.id == id then Some(last)
      else FindDefinition(attributes[..|attributes| - 1], id)
  }

  function FindAttributeIn(groups: seq<Group>, id: string): (r: Option<(Attribute, string)>)
    ensures r.Some? ==> r.value.0.Defines() && r.value.0.id == id
    ensures r.Some? ==> exists g :: g in groups && g.id == r.value.1 && r.value.0 in g.attributes
    ensures r.None? ==> forall g, a :: g in groups && a in g.attributes && a.Defines() ==> a.id != id
  {
    if groups == [] then None
    else
      var last := groups[|groups| - 1];
      var def := FindDefinition(last.attributes, id);
      if def.Some? then Some((def.value, last.id))
      else FindAttributeIn(groups[..|groups| - 1], id)
  }

  datatype Scope = Scope(groups: seq<string>, namespaces: seq<string>)

  /** `tracking` is `track: head`; otherwise `version` is the pin. */
  datatype Assertion = Assertion(version: string, tracking: bool, scope: Scope, signals: seq<Signal>, window: int)
  {
    predicate Covers(kind: Signal) { kind in signals }

    function RegistryKey(): string { if tracking then TRACK_HEAD else version }

    function ReadingOf(kind: Signal): SchemaReading { SchemaReading(kind, window) }
  }

  const TRACK_HEAD: string := "head"

  datatype Placement = Landed | Live

  datatype Requirement = Requirement(
    id: string,
    environments: seq<string>,
    placement: Placement,
    schema: Option<Assertion>)
  {
    predicate AppliesTo(environment: string) { environments == [] || environment in environments }

    predicate LandedSchema(environment: string) {
      schema.Some? && AppliesTo(environment) && placement != Live
    }

    predicate LiveSchema(environment: string) {
      schema.Some? && AppliesTo(environment) && placement == Live
    }
  }

  /** `requirements` is the library in its `Sorted()` order. */
  datatype Library = Library(requirements: seq<Requirement>, registries: map<string, Registry>)

  /** The shape attribute-name and group-name readings share. */
  datatype NameSet = NameSet(known: bool, names: seq<string>, truncated: bool)

  datatype DistinctValues = DistinctValues(known: bool, values: seq<string>, truncated: bool)

  datatype SignalObservation = SignalObservation(known: bool, present: bool)

  datatype Liveness = Liveness(known: bool, sent: int, sendFailed: int)

  /** One tap finding, normalised: the signal it is on (None when the
      vocabulary cannot place it) and the level it lands at. */
  datatype TapFinding = TapFinding(signal: Option<Signal>, id: TapId, severity: TapSeverity)

  datatype TapId =
    | RequiredNotPresent | ConditionallyRequiredNotPresent | RecommendedNotPresent | OptInNotPresent
    | OtherTapId

  datatype TapSeverity = TapViolation | TapImprovement | TapInformation | TapUnstated

  datatype LiveFindings = LiveFindings(known: bool, records: seq<TapFinding>, truncated: bool, liveness: Liveness)

  /** Everything one row's schema requirements are judged on. `observed` is
      the presence reading per window and signal. */
  datatype Evidence = Evidence(
    versions: map<string, Registry>,
    names: map<SchemaReading, NameSet>,
    groups: map<SchemaReading, NameSet>,
    values: map<ValueReading, DistinctValues>,
    live: map<int, LiveFindings>,
    activeVersion: string,
    observed: map<int, map<Signal, SignalObservation>>)
  {
    /** The gate on value readings: the name reading found the attribute. */
    predicate InUse(key: SchemaReading, attribute: string) {
      key in names && names[key].known && attribute in names[key].names
    }

    function RegistryFor(a: Assertion): Option<Registry> {
      if a.RegistryKey() in versions then Some(versions[a.RegistryKey()]) else None
    }

    function ActiveRegistry(): Option<Registry> {
      if activeVersion != "" && activeVersion in versions then Some(versions[activeVersion]) else None
    }
  }

  /** One attribute a scope demands: the level comes from the entry, the
      members from the definition. */
  datatype Demand = Demand(attribute: string, level: Level, group: string, members: seq<Member>, declaredIn: string)

  datatype Scoped = Scoped(group: Group, demands: seq<Demand>)
}
