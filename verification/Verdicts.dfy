/** The outcome vocabulary, the finding every evaluator produces and the
    notes that say which reading a verdict could not use. */
module Verdicts {
  import opened Base

  datatype Outcome =
    | BrokenPipeline | NotConfigured | NotDelivered | Misconfigured
    | LibraryDrift | Unknown | Ungoverned | Compliant
  {
    function Severity(): nat {
      match this
      case BrokenPipeline => 7
      case NotConfigured => 6
      case NotDelivered => 5
      case Misconfigured => 4
      case LibraryDrift => 3
      case Unknown => 2
      case Ungoverned => 1
      case Compliant => 0
    }

    predicate Passing() { Compliant? || Ungoverned? }
  }

  function Worst(a: Outcome, b: Outcome): Outcome {
    if b.Severity() > a.Severity() then b else a
  }

  datatype Signal = Logs | Metrics | Traces

  const SIGNALS: seq<Signal> := [Logs, Metrics, Traces]

  /** One signal over one trailing window: the key a reading is filed under. */
  datatype SchemaReading = SchemaReading(kind: Signal, window: int)

  datatype ValueReading = ValueReading(kind: Signal, window: int, attribute: string)

  /** What a verdict says about the readings behind it. The first four are
      the "no reading covers" branches. */
  datatype Note =
    | NoNameReading(reading: SchemaReading)
    | NoGroupReading(reading: SchemaReading, group: string)
    | NoValueReading(value: ValueReading)
    | NoLiveReading(window: int)
    | NoRegistry(version: string)
    | NamesUnavailable(kind: Signal)
    | SignalNotArrived(kind: Signal)
    | NamesTruncated(kind: Signal)
    | GroupUnavailable(group: string)
    | GroupTruncated(group: string)
    | GroupAbsent(group: string)
    | ValuesUnavailable(value: ValueReading)
    | ValuesTruncated(value: ValueReading)
    | LiveUnavailable
    | TapUnreadable
    | TapNotFed
    | TapSendFailures
    | PassesPinFailsActive(pin: string, active: string)
  {
    predicate Uncovered() {
      NoNameReading? || NoGroupReading? || NoValueReading? || NoLiveReading?
    }
  }

  datatype Grade = Violation | Advisory | Neutral

  datatype Facet = FacetNone | FacetRegistry

  datatype Waiver = WaiverNone | WaiverExempt(exemption: string) | WaiverGrace(until: int)

  /** One requirement's verdict on one row. `grade` is None when the producer
      left it empty; `coverage` holds the in-use and demanded counts. */
  datatype Finding = Finding(
    requirement: string,
    outcome: Outcome,
    facet: Facet,
    grade: Option<Grade>,
    coverage: Option<(nat, nat)>,
    waived: Waiver,
    missing: seq<string>,
    notes: set<Note>)
  {
    /** An ungraded finding fails closed: it weighs as a violation. */
    function Weight(): Grade { if grade.None? then Violation else grade.value }

    predicate Scored() { Weight() == Violation }

    predicate Counts() { waived == WaiverNone }

    predicate Failing() { !outcome.Passing() && Counts() && Scored() }
  }
}
