/** Every finding of one landed judgement over the readings and the registry
    file as loaded: which levels speak, what each is graded, what it finds
    missing, how much of it is covered, and which readings it says it could
    not use. */
module SchemaFindings {
  import opened Base
  import opened Verdicts
  import opened SchemaModel
  import opened SchemaScope
  import opened SchemaJudge
  import opened SchemaStability
  import opened SchemaMeaning

  // ------------------------------------------------------- who is judged where

  /** Required is the strictest. */
  ghost function Strictness(l: Level): nat {
    match l
    case Required => 0
    case ConditionallyRequired => 1
    case Recommended => 2
    case OptIn => 3
  }

  ghost predicate AskedAt(a: Assertion, reg: Registry, ev: Evidence, key: string, level: Level) {
    exists g, x :: AskedBy(a, reg, ev, g, x, level) && EntryKey(x) == key
  }

  /** The attribute is judged at the strictest level it is asked at. */
  ghost predicate JudgedAtLevel(a: Assertion, reg: Registry, ev: Evidence, key: string, level: Level) {
    AskedAt(a, reg, ev, key, level) && forall l :: AskedAt(a, reg, ev, key, l) ==> Strictness(level) <= Strictness(l)
  }

  lemma AskedIs(a: Assertion, reg: Registry, ev: Evidence, key: string, level: Level)
    requires LoadedRegistry(reg)
    ensures AskedAt(a, reg, ev, key, level) <==> Declares(ReadGroups(a, ScopedGroups(reg, a.scope), ev).inPlay, key, level)
  {
    hide LoadedRegistry, ScopedGroups, ReadGroups, AskedBy, Enumerates, EntryKey;
    var inPlay := ReadGroups(a, ScopedGroups(reg, a.scope), ev).inPlay;
    if g, x :| AskedBy(a, reg, ev, g, x, level) && EntryKey(x) == key {
      var s := AskedIsDeclared(a, reg, ev, g, x, level);
    }
    if s, d :| s in inPlay && d in s.demands && d.attribute == key && d.level == level {
      var g, x := DemandIsAsked(a, reg, ev, s, d);
    }
  }

  /** The attributes demanded at a level, in order: exactly those judged there. */
  lemma LevelKeysAre(a: Assertion, reg: Registry, ev: Evidence, level: Level)
    requires LoadedRegistry(reg)
    ensures Increasing(Less, Keys(AtLevel(DemandsInPlay(a, reg, ev), level)))
    ensures forall k :: k in Keys(AtLevel(DemandsInPlay(a, reg, ev), level)) <==> JudgedAtLevel(a, reg, ev, k, level)
  {
    var inPlay := ReadGroups(a, ScopedGroups(reg, a.scope), ev).inPlay;
    var at := AtLevel(DemandsInPlay(a, reg, ev), level);
    hide LoadedRegistry, ScopedGroups, ReadGroups, AskedAt, Less;
    assert DemandsInPlay(a, reg, ev) == DemandsIn(inPlay);
    DemandsInIsTheStrictestMap(inPlay);
    hide DemandsIn;
    FilterKeepsOrder((d: Demand) => d.level == level, DemandsIn(inPlay));
    forall k ensures k in Keys(at) <==> JudgedAtLevel(a, reg, ev, k, level) {
      StrictestLevelWins(inPlay, k, level);
      forall l { AskedIs(a, reg, ev, k, l); }
      hide Declares;
      if k in Keys(at) {
        var i :| 0 <= i < |at| && at[i].attribute == k;
        assert at[i] in at;
      }
      if JudgedAt(inPlay, k, level) {
        var d :| d in DemandsIn(inPlay) && d.attribute == k && d.level == level;
        assert d in at;
        var i :| 0 <= i < |at| && at[i] == d;
        assert Keys(at)[i] == k;
      }
    }
  }

  lemma {:induction false} FilterKeepsOrder(keep: Demand -> bool, s: seq<Demand>)
    requires Increasing(ByAttribute, s)
    ensures Increasing(ByAttribute, Filter(keep, s)) && Increasing(Less, Keys(Filter(keep, s)))
  {
    hide Less;
    if s != [] {
      FilterKeepsOrder(keep, s[1..]);
      var rest := Filter(keep, s[1..]);
      forall i | 0 <= i < |rest| ensures ByAttribute(s[0], rest[i]) {
        assert rest[i] in rest;
        var j :| 0 <= j < |s[1..]| && s[1..][j] == rest[i];
        assert s[j + 1] == rest[i];
      }
    }
  }

  // ----------------------------------------------------------- what is missing

  ghost predicate UnnamedAt(a: Assertion, reg: Registry, ev: Evidence, key: string, level: Level) {
    JudgedAtLevel(a, reg, ev, key, level) && !InUseAnywhere(a, ev, key)
  }

  lemma MissingAre(a: Assertion, reg: Registry, ev: Evidence, level: Level)
    requires LoadedRegistry(reg)
    ensures var missing := Missing(AtLevel(DemandsInPlay(a, reg, ev), level), ReadScope(a, ev).present);
            Increasing(Less, missing) && forall k :: k in missing <==> UnnamedAt(a, reg, ev, k, level)
  {
    var demands := DemandsInPlay(a, reg, ev);
    var at, present := AtLevel(demands, level), ReadScope(a, ev).present;
    LevelKeysAre(a, reg, ev, level);
    assert Increasing(ByAttribute, demands) by { DemandsInIsTheStrictestMap(ReadGroups(a, ScopedGroups(reg, a.scope), ev).inPlay); }
    hide LoadedRegistry, DemandsInPlay, ReadScope, JudgedAtLevel, Less;
    FilterKeepsOrder((d: Demand) => d.level == level, demands);
    FilterKeepsOrder((d: Demand) => d.attribute !in present, at);
    forall k ensures k in Missing(at, present) <==> UnnamedAt(a, reg, ev, k, level) {
      PresentMeaning(a, ev, k);
      InUseIs(a, ev, k);
      assert k in Keys(at) <==> exists d :: d in at && d.attribute == k by { KeysAre(at, k); }
    }
  }

  lemma KeysAre(ds: seq<Demand>, k: string)
    ensures k in Keys(ds) <==> exists d :: d in ds && d.attribute == k
  {
    if d :| d in ds && d.attribute == k {
      var i :| 0 <= i < |ds| && ds[i] == d;
      assert Keys(ds)[i] == k;
    }
  }

  // ------------------------------------------------------------------ the notes

  /** A known-unsure reading of an enum attribute judged at the level, where no
      reading breaches it. */
  ghost predicate Unvouched(a: Assertion, reg: Registry, ev: Evidence, level: Level, v: ValueReading) {
    && v.window == a.window && AnythingLanded(a, ev) && JudgedAtLevel(a, reg, ev, v.attribute, level)
    && ValuesRead(a, v.kind, v.attribute, ev)
    && exists g, x, members ::
         && AskedBy(a, reg, ev, g, x, level) && EntryKey(x) == v.attribute && Enumerates(reg, x, members) && members != []
         && forall kind :: !HoldsUndeclared(a, members, kind, v.attribute, ev)
  }

  /** When each note is on a level's finding: which covered name reading was
      missing, unavailable, silent or clipped; which reached group could not be
      located; and which enum values could not vouch for themselves. */
  ghost predicate Noted(a: Assertion, reg: Registry, ev: Evidence, level: Level, n: Note) {
    match n
    case NoNameReading(r) => r.window == a.window && r.kind in a.signals && r !in ev.names
    case NamesUnavailable(kind) => kind in a.signals && NameReading(a, kind) in ev.names && !ev.names[NameReading(a, kind)].known
    case SignalNotArrived(kind) => NamesKnown(a, kind, ev) && !SignalLanded(a, kind, ev)
    case NamesTruncated(kind) => NamesKnown(a, kind, ev) && SignalLanded(a, kind, ev) && ev.names[NameReading(a, kind)].truncated
    case NoGroupReading(r, id) =>
      r == MetricReading(a) && r !in ev.groups && exists g :: GroupReached(reg, a.scope, g) && LookedFor(a, g) && g.id == id
    case GroupUnavailable(id) =>
      MetricReading(a) in ev.groups && !ev.groups[MetricReading(a)].known
      && exists g :: GroupReached(reg, a.scope, g) && LookedFor(a, g) && g.id == id
    case GroupTruncated(id) =>
      MetricReading(a) in ev.groups && ev.groups[MetricReading(a)].known && ev.groups[MetricReading(a)].truncated
      && exists g :: GroupReached(reg, a.scope, g) && !GroupSeen(a, g, ev) && g.id == id
    case GroupAbsent(id) => exists g :: GroupReached(reg, a.scope, g) && GroupGone(a, g, ev) && g.id == id
    case NoValueReading(v) => Unvouched(a, reg, ev, level, v) && v !in ev.values
    case ValuesUnavailable(v) => Unvouched(a, reg, ev, level, v) && v in ev.values && !ev.values[v].known
    case ValuesTruncated(v) => Unvouched(a, reg, ev, level, v) && v in ev.values && ev.values[v].known && ev.values[v].truncated
    case _ => false
  }

  /** The notes of one signal's name reading. */
  lemma KindNotesAre(a: Assertion, kind: Signal, ev: Evidence, n: Note)
    ensures n in KindNotes(a, kind, ev) <==>
      match n
      case NoNameReading(r) => r == NameReading(a, kind) && kind in a.signals && r !in ev.names
      case NamesUnavailable(k) => k == kind && kind in a.signals && NameReading(a, kind) in ev.names && !ev.names[NameReading(a, kind)].known
      case SignalNotArrived(k) => k == kind && NamesKnown(a, kind, ev) && !SignalLanded(a, kind, ev)
      case NamesTruncated(k) => k == kind && NamesKnown(a, kind, ev) && SignalLanded(a, kind, ev) && ev.names[NameReading(a, kind)].truncated
      case _ => false
  {
    SignalReadings(a, kind, ev);
    hide SignalLanded, Arrived;
  }

  /** And of one group's. */
  lemma GroupNotesAre(a: Assertion, g: Group, ev: Evidence, n: Note)
    ensures n in GroupNotes(a, g, ev) <==>
      match n
      case NoGroupReading(r, id) => r == MetricReading(a) && r !in ev.groups && LookedFor(a, g) && g.id == id
      case GroupUnavailable(id) => MetricReading(a) in ev.groups && !ev.groups[MetricReading(a)].known && LookedFor(a, g) && g.id == id
      case GroupTruncated(id) =>
        MetricReading(a) in ev.groups && ev.groups[MetricReading(a)].known && ev.groups[MetricReading(a)].truncated
        && !GroupSeen(a, g, ev) && g.id == id
      case GroupAbsent(id) => GroupGone(a, g, ev) && g.id == id
      case _ => false
  {
    GroupArrival(a, g, ev);
  }

  lemma SignalNotes(a: Assertion, reg: Registry, ev: Evidence, level: Level, n: Note)
    requires n.NoNameReading? || n.NamesUnavailable? || n.SignalNotArrived? || n.NamesTruncated?
    ensures (exists kind :: n in KindNotes(a, kind, ev)) <==> Noted(a, reg, ev, level, n)
  {
    hide SignalLanded, NamesKnown, KindNotes;
    forall kind { KindNotesAre(a, kind, ev, n); }
    if Noted(a, reg, ev, level, n) {
      var kind := match n case NoNameReading(r) => r.kind case NamesUnavailable(k) => k case SignalNotArrived(k) => k case NamesTruncated(k) => k;
      assert n in KindNotes(a, kind, ev);
    }
  }

  lemma GroupsNotes(a: Assertion, reg: Registry, ev: Evidence, level: Level, n: Note)
    requires LoadedRegistry(reg)
    requires n.NoGroupReading? || n.GroupUnavailable? || n.GroupTruncated? || n.GroupAbsent?
    ensures (exists s :: s in ScopedGroups(reg, a.scope) && n in GroupNotes(a, s.group, ev)) <==> Noted(a, reg, ev, level, n)
  {
    hide LoadedRegistry, ScopedGroups, GroupReached, GroupSeen, GroupGone, LookedFor, GroupNotes;
    forall g { GroupNotesAre(a, g, ev, n); }
    forall g ensures GroupReached(reg, a.scope, g) <==> exists s :: s in ScopedGroups(reg, a.scope) && s.group == g { GroupReachedIs(reg, a.scope, g); }
    if s :| s in ScopedGroups(reg, a.scope) && n in GroupNotes(a, s.group, ev) {
      assert GroupReached(reg, a.scope, s.group);
    }
    if Noted(a, reg, ev, level, n) {
      var g :| GroupReached(reg, a.scope, g) && n in GroupNotes(a, g, ev);
    }
  }

  ghost predicate OfAValue(n: Note) { n.NoValueReading? || n.ValuesUnavailable? || n.ValuesTruncated? }

  ghost function ValueOf(n: Note): ValueReading
    requires OfAValue(n)
  {
    match n
    case NoValueReading(v) => v
    case ValuesUnavailable(v) => v
    case ValuesTruncated(v) => v
  }

  lemma NotedOfAValue(a: Assertion, reg: Registry, ev: Evidence, level: Level, n: Note)
    requires OfAValue(n)
    ensures Noted(a, reg, ev, level, n) <==> Unvouched(a, reg, ev, level, ValueOf(n)) && ValueNoted(ev, n, ValueOf(n))
  {
    hide Unvouched;
  }

  ghost predicate OfASignal(n: Note) { n.NoNameReading? || n.NamesUnavailable? || n.SignalNotArrived? || n.NamesTruncated? }

  ghost predicate OfAGroup(n: Note) { n.NoGroupReading? || n.GroupUnavailable? || n.GroupTruncated? || n.GroupAbsent? }

  lemma SharedNotesSplit(a: Assertion, reg: Registry, ev: Evidence, n: Note)
    ensures n in SharedReading(a, ScopedGroups(reg, a.scope), ev).notes <==>
      || (OfASignal(n) && exists kind :: n in KindNotes(a, kind, ev))
      || (OfAGroup(n) && exists s :: s in ScopedGroups(reg, a.scope) && n in GroupNotes(a, s.group, ev))
  {
    var groups := ScopedGroups(reg, a.scope);
    forall kind ensures kind in SIGNALS { SignalsAreAll(kind); }
    assert n in SharedReading(a, groups, ev).notes <==>
      || (exists kind :: kind in SIGNALS && n in KindNotes(a, kind, ev))
      || (exists s :: s in groups && n in GroupNotes(a, s.group, ev));
    forall kind { KindNotesAre(a, kind, ev, n); }
    forall g { GroupNotesAre(a, g, ev, n); }
    hide KindNotes, GroupNotes, ScopedGroups, SharedReading, NamesKnown, SignalLanded, GroupSeen, GroupGone, LookedFor;
  }

  lemma SharedNotesAre(a: Assertion, reg: Registry, ev: Evidence, level: Level, n: Note)
    requires LoadedRegistry(reg)
    ensures n in SharedReading(a, ScopedGroups(reg, a.scope), ev).notes <==> !OfAValue(n) && Noted(a, reg, ev, level, n)
  {
    hide KindNotes, GroupNotes, ScopedGroups, SharedReading, LoadedRegistry;
    SharedNotesSplit(a, reg, ev, n);
    if OfASignal(n) {
      hide Noted;
      SignalNotes(a, reg, ev, level, n);
    } else if OfAGroup(n) {
      hide Noted;
      GroupsNotes(a, reg, ev, level, n);
    } else {
      hide Unvouched;
    }
  }

  // the enum notes of a level

  ghost predicate ValueNoted(ev: Evidence, n: Note, v: ValueReading) {
    match n
    case NoValueReading(r) => r == v && v !in ev.values
    case ValuesUnavailable(r) => r == v && v in ev.values && !ev.values[v].known
    case ValuesTruncated(r) => r == v && v in ev.values && ev.values[v].known && ev.values[v].truncated
    case _ => false
  }

  lemma ValueNotesAre(a: Assertion, kind: Signal, key: string, ev: Evidence, n: Note)
    ensures n in ValueNotes(a, kind, key, ev) <==> ValuesRead(a, kind, key, ev) && ValueNoted(ev, n, ValueReading(kind, a.window, key))
    ensures n in ValueNotes(a, kind, key, ev) ==> ReadFor(a, kind, key, ev) && Unproven(a, kind, key, ev)
  {
  }

  /** The demand's own unsure notes: some reading of it cannot vouch for itself
      and none breaches it. */
  lemma EnumNotesAre(a: Assertion, demands: seq<Demand>, ev: Evidence, d: Demand, n: Note)
    requires Increasing(ByAttribute, demands) && d in demands
    ensures (EnumUnsure(d, ReadEnums(a, demands, ev)) && n in ReadEnums(a, demands, ev)[d.attribute].notes) <==>
      && d.members != [] && (forall kind :: !HoldsUndeclared(a, d.members, kind, d.attribute, ev))
      && exists kind :: ValuesRead(a, kind, d.attribute, ev) && ValueNoted(ev, n, ValueReading(kind, a.window, d.attribute))
  {
    ReadEnumsMeaning(a, demands, ev, d);
    forall kind ensures kind in SIGNALS { SignalsAreAll(kind); }
    hide ReadEnums, SIGNALS;
    if Judged(a, d, SIGNALS, ev) || d.members != [] {
      JudgeEnumIs(a, d, ev, n);
    }
    hide JudgeEnum, HoldsUndeclared, ValueNoted;
    if d.members != [] {
      if kind :| ValuesRead(a, kind, d.attribute, ev) && ValueNoted(ev, n, ValueReading(kind, a.window, d.attribute)) {
        assert ReadFor(a, kind, d.attribute, ev);
        assert Judged(a, d, SIGNALS, ev);
      }
    }
  }

  lemma JudgeEnumIs(a: Assertion, d: Demand, ev: Evidence, n: Note)
    requires d.members != [] && forall kind: Signal :: kind in SIGNALS
    ensures JudgeEnum(a, d, SIGNALS, ev).undeclared == {} <==> forall kind :: !HoldsUndeclared(a, d.members, kind, d.attribute, ev)
    ensures JudgeEnum(a, d, SIGNALS, ev).undeclared == {} ==>
      (JudgeEnum(a, d, SIGNALS, ev).unknown && n in JudgeEnum(a, d, SIGNALS, ev).notes <==>
        exists kind :: ValuesRead(a, kind, d.attribute, ev) && ValueNoted(ev, n, ValueReading(kind, a.window, d.attribute)))
  {
    forall kind { EnumBreachExactly(a, d, kind, ev); }
    forall kind { ValueNotesAre(a, kind, d.attribute, ev, n); }
    hide HoldsUndeclared, UndeclaredOn, ValueNotes, ValuesRead, ValueNoted, ReadFor, Unproven;
    if kind :| UndeclaredOn(a, d, kind, ev) != {} {
      var v :| v in UndeclaredOn(a, d, kind, ev);
      assert v in Undeclared(a, d, SIGNALS, ev);
    }
  }

  lemma UnsureIsNoted(a: Assertion, reg: Registry, ev: Evidence, level: Level, d: Demand, n: Note)
    requires LoadedRegistry(reg) && AnythingLanded(a, ev) && d in AtLevel(DemandsInPlay(a, reg, ev), level)
    requires EnumUnsure(d, ReadEnums(a, DemandsInPlay(a, reg, ev), ev)) && n in ReadEnums(a, DemandsInPlay(a, reg, ev), ev)[d.attribute].notes
    ensures OfAValue(n) && Noted(a, reg, ev, level, n)
  {
    hide LoadedRegistry, Unvouched, EnumUnsure, AnythingLanded, Noted, ValueNoted;
    var v := UnsureValue(a, reg, ev, level, d, n);
    IsNotedOfAValue(a, reg, ev, level, n, v);
  }

  lemma IsNotedOfAValue(a: Assertion, reg: Registry, ev: Evidence, level: Level, n: Note, v: ValueReading)
    requires ValueNoted(ev, n, v) && Unvouched(a, reg, ev, level, v)
    ensures OfAValue(n) && Noted(a, reg, ev, level, n)
  {
    hide Unvouched;
  }

  /** The reading an unsure level's note is about. */
  lemma UnsureValue(a: Assertion, reg: Registry, ev: Evidence, level: Level, d: Demand, n: Note) returns (v: ValueReading)
    requires LoadedRegistry(reg) && AnythingLanded(a, ev) && d in AtLevel(DemandsInPlay(a, reg, ev), level)
    requires EnumUnsure(d, ReadEnums(a, DemandsInPlay(a, reg, ev), ev)) && n in ReadEnums(a, DemandsInPlay(a, reg, ev), ev)[d.attribute].notes
    ensures ValueNoted(ev, n, v) && Unvouched(a, reg, ev, level, v)
  {
    var inPlay := ReadGroups(a, ScopedGroups(reg, a.scope), ev).inPlay;
    LevelKeysAre(a, reg, ev, level);
    KeysAre(AtLevel(DemandsInPlay(a, reg, ev), level), d.attribute);
    DemandsInIsTheStrictestMap(inPlay);
    EnumNotesAre(a, DemandsInPlay(a, reg, ev), ev, d, n);
    hide Noted, ValueNoted, LoadedRegistry, ScopedGroups, ReadGroups, DemandsIn, AskedBy, Enumerates, EntryKey, JudgedAtLevel, HoldsUndeclared, ReadEnums, AnythingLanded,
      ValuesRead;
    var s := DemandingGroup(inPlay, d);
    var g, x := DemandIsAsked(a, reg, ev, s, d);
    var kind :| ValuesRead(a, kind, d.attribute, ev) && ValueNoted(ev, n, ValueReading(kind, a.window, d.attribute));
    v := ValueReading(kind, a.window, d.attribute);
  }

  lemma NotedIsUnsure(a: Assertion, reg: Registry, ev: Evidence, level: Level, n: Note) returns (d: Demand)
    requires LoadedRegistry(reg) && OfAValue(n) && Noted(a, reg, ev, level, n)
    ensures AnythingLanded(a, ev) && d in AtLevel(DemandsInPlay(a, reg, ev), level)
    ensures EnumUnsure(d, ReadEnums(a, DemandsInPlay(a, reg, ev), ev)) && n in ReadEnums(a, DemandsInPlay(a, reg, ev), ev)[d.attribute].notes
  {
    hide LoadedRegistry, ScopedGroups, ReadGroups, DemandsIn, JudgedAtLevel, HoldsUndeclared, ReadEnums, ValueNoted, Noted;
    var v := ValueOf(n);
    NotedOfAValue(a, reg, ev, level, n);
    d := VouchlessDemand(a, reg, ev, level, v);
    hide AnythingLanded, AtLevel, EnumUnsure;
    InLevel(a, reg, ev, level, d);
    EnumNotesAre(a, DemandsInPlay(a, reg, ev), ev, d, n);
    assert v == ValueReading(v.kind, a.window, d.attribute);
  }

  lemma InLevel(a: Assertion, reg: Registry, ev: Evidence, level: Level, d: Demand)
    requires d in AtLevel(DemandsInPlay(a, reg, ev), level)
    ensures d in DemandsInPlay(a, reg, ev) && Increasing(ByAttribute, DemandsInPlay(a, reg, ev))
  {
    hide ScopedGroups, ReadGroups, DemandsIn;
    DemandsInIsTheStrictestMap(ReadGroups(a, ScopedGroups(reg, a.scope), ev).inPlay);
  }

  lemma VouchlessDemand(a: Assertion, reg: Registry, ev: Evidence, level: Level, v: ValueReading) returns (d: Demand)
    requires LoadedRegistry(reg) && Unvouched(a, reg, ev, level, v)
    ensures d in AtLevel(DemandsInPlay(a, reg, ev), level) && d.attribute == v.attribute && d.members != []
    ensures forall kind :: !HoldsUndeclared(a, d.members, kind, d.attribute, ev)
  {
    hide LoadedRegistry, AskedBy, Enumerates, EntryKey, JudgedAtLevel, HoldsUndeclared, AnythingLanded, ValuesRead, AtLevel, DemandsInPlay;
    var g, x, members :| AskedBy(a, reg, ev, g, x, level) && EntryKey(x) == v.attribute && Enumerates(reg, x, members) && members != []
      && forall kind :: !HoldsUndeclared(a, members, kind, v.attribute, ev);
    LevelKeysAre(a, reg, ev, level);
    KeysAre(AtLevel(DemandsInPlay(a, reg, ev), level), v.attribute);
    d :| d in AtLevel(DemandsInPlay(a, reg, ev), level) && d.attribute == v.attribute;
    InLevel(a, reg, ev, level, d);
    OneListOfMembers(a, reg, ev, g, x, level, members, d);
  }

  /** However an attribute is asked for, it has one list of members. */
  lemma OneListOfMembers(a: Assertion, reg: Registry, ev: Evidence, g: Group, x: Attribute, level: Level, members: seq<Member>, d: Demand)
    requires LoadedRegistry(reg) && AskedBy(a, reg, ev, g, x, level) && Enumerates(reg, x, members)
    requires d in DemandsInPlay(a, reg, ev) && d.attribute == EntryKey(x)
    ensures d.members == members
  {
    hide LoadedRegistry, ScopedGroups, ReadGroups, DemandsIn, AskedBy, Enumerates, EntryKey, ValidIds, OneDefinition, BareReferences, DemandOf, Declares;
    var scoped := ScopedGroups(reg, a.scope);
    LoadedIsValid(reg);
    var s := AskedIsDeclared(a, reg, ev, g, x, level);
    var t := DemandingGroup(ReadGroups(a, scoped, ev).inPlay, d);
    InPlayMeaning(a, scoped, ev, t);
    SameMembersByDefinition(reg, a.scope, s, DemandOf(reg, g, x), t, d);
    AskedStands(a, reg, ev, g, x, level);
    EnumeratesOne(reg, g, x, members, DemandOf(reg, g, x).members);
  }

  lemma AskedStands(a: Assertion, reg: Registry, ev: Evidence, g: Group, x: Attribute, level: Level)
    requires AskedBy(a, reg, ev, g, x, level)
    ensures g in reg.groups && x in g.attributes
  {
  }

  // --------------------------------------------------------------- the findings

  /** What the finding of one level says. */
  ghost predicate Says(req: string, a: Assertion, reg: Registry, ev: Evidence, level: Level, f: Finding) {
    f.requirement == req && PlainSays(a, reg, ev, level, f) && NamesMissing(a, reg, ev, level, f) && CoverageSays(a, reg, ev, level, f)
    && NotesWhatItLacks(a, reg, ev, level, f)
  }

  ghost predicate NotesWhatItLacks(a: Assertion, reg: Registry, ev: Evidence, level: Level, f: Finding) {
    forall n :: n in f.notes <==> Noted(a, reg, ev, level, n)
  }

  /** Graded by its level, and below required no more than what arrived. */
  ghost predicate PlainSays(a: Assertion, reg: Registry, ev: Evidence, level: Level, f: Finding) {
    && f.facet == FacetNone && f.waived == WaiverNone
    && f.grade == Some(match level case Required => Violation case ConditionallyRequired => Advisory case Recommended => Advisory case OptIn => Neutral)
    && (level != Required ==>
          f.outcome == if SomethingLost(a, reg, ev) then NotDelivered else if SomethingUnseen(a, reg, ev) then Unknown else Compliant)
  }

  /** Names, once something landed, each attribute judged there that nothing
      that landed names. */
  ghost predicate NamesMissing(a: Assertion, reg: Registry, ev: Evidence, level: Level, f: Finding) {
    Increasing(Less, f.missing) && forall k :: k in f.missing <==> AnythingLanded(a, ev) && UnnamedAt(a, reg, ev, k, level)
  }

  /** Only the recommended level counts, once something landed: how many of the
      attributes judged there are in use, of how many. */
  ghost predicate CoverageSays(a: Assertion, reg: Registry, ev: Evidence, level: Level, f: Finding) {
    exists keys: seq<string> :: CoverageOf(a, reg, ev, level, f, keys)
  }

  /** `keys` are the attributes judged at the level, each once. */
  ghost predicate CoverageOf(a: Assertion, reg: Registry, ev: Evidence, level: Level, f: Finding, keys: seq<string>) {
    && Increasing(Less, keys) && (forall k :: k in keys <==> JudgedAtLevel(a, reg, ev, k, level))
    && if level == Recommended && AnythingLanded(a, ev) && keys != []
       then |f.missing| <= |keys| && f.coverage == Some((|keys| - |f.missing|, |keys|))
       else f.coverage == None
  }

  lemma OutcomeSays(req: string, a: Assertion, reg: Registry, ev: Evidence, level: Level)
    requires LoadedRegistry(reg) && level != Required
    ensures SharedReading(a, ScopedGroups(reg, a.scope), ev).outcome ==
      if SomethingLost(a, reg, ev) then NotDelivered else if SomethingUnseen(a, reg, ev) then Unknown else Compliant
  {
    ReadingOutcomes(a, ScopedGroups(reg, a.scope), ev);
    ArrivalOverReadings(a, reg, ev);
    forall kind ensures kind in SIGNALS { SignalsAreAll(kind); }
    hide SharedReading, ScopedGroups, Silent, Blind, ArrivalOf, LoadedRegistry, SomethingLost, SomethingUnseen;
  }

  lemma NotesSay(req: string, a: Assertion, reg: Registry, ev: Evidence, level: Level, f: Finding, n: Note)
    requires LoadedRegistry(reg) && Built(req, a, reg, ev, level, f)
    ensures n in f.notes <==> Noted(a, reg, ev, level, n)
  {
    var demands := DemandsInPlay(a, reg, ev);
    var at, enums := AtLevel(demands, level), ReadEnums(a, demands, ev);
    SharedNotesAre(a, reg, ev, level, n);
    JudgeableSays(a, reg, ev);
    hide LoadedRegistry, Noted, SharedReading, AnythingLanded, ReadEnums, DemandsInPlay, ScopedGroups, EnumUnsure, OutcomeAt, Missing, AtLevel;
    if AnythingLanded(a, ev) && n in UnsureNotes(at, enums) {
      var d :| d in at && EnumUnsure(d, enums) && n in enums[d.attribute].notes;
      UnsureIsNoted(a, reg, ev, level, d, n);
    }
    if OfAValue(n) && Noted(a, reg, ev, level, n) {
      var d := NotedIsUnsure(a, reg, ev, level, n);
      assert n in UnsureNotes(at, enums);
    }
  }

  lemma AllNotesSay(req: string, a: Assertion, reg: Registry, ev: Evidence, level: Level, f: Finding)
    requires LoadedRegistry(reg) && Built(req, a, reg, ev, level, f)
    ensures NotesWhatItLacks(a, reg, ev, level, f)
  {
    hide LoadedRegistry, Built, Noted;
    forall n ensures n in f.notes <==> Noted(a, reg, ev, level, n) { NotesSay(req, a, reg, ev, level, f, n); }
  }

  lemma JudgeableSays(a: Assertion, reg: Registry, ev: Evidence)
    ensures SharedReading(a, ScopedGroups(reg, a.scope), ev).judgeable <==> AnythingLanded(a, ev)
    ensures SharedReading(a, ScopedGroups(reg, a.scope), ev).present == ReadScope(a, ev).present
  {
    PresentMeaning(a, ev, "");
    SignalsLanded(a, ev);
    hide Usable, Clipped, ReadGroups, NamesKnown, SignalLanded;
  }

  /** What the finding is built of. */
  ghost predicate Built(req: string, a: Assertion, reg: Registry, ev: Evidence, level: Level, f: Finding) {
    var demands := DemandsInPlay(a, reg, ev);
    f == SchemaFinding(req, level, AtLevel(demands, level), SharedReading(a, ScopedGroups(reg, a.scope), ev), ReadEnums(a, demands, ev))
  }

  lemma MissingSays(req: string, a: Assertion, reg: Registry, ev: Evidence, level: Level, f: Finding)
    requires LoadedRegistry(reg) && Built(req, a, reg, ev, level, f)
    ensures NamesMissing(a, reg, ev, level, f)
  {
    JudgeableSays(a, reg, ev);
    MissingAre(a, reg, ev, level);
    hide LoadedRegistry, SharedReading, AnythingLanded, ReadEnums, DemandsInPlay, ScopedGroups, UnsureNotes, ReadScope, UnnamedAt, AtLevel, Missing, OutcomeAt;
  }

  lemma CoverageCounts(req: string, a: Assertion, reg: Registry, ev: Evidence, level: Level, f: Finding)
    requires LoadedRegistry(reg) && Built(req, a, reg, ev, level, f)
    ensures CoverageSays(a, reg, ev, level, f)
  {
    hide CoverageOf, LoadedRegistry, Built;
    var keys := CoverageKeys(req, a, reg, ev, level, f);
  }

  lemma CoverageKeys(req: string, a: Assertion, reg: Registry, ev: Evidence, level: Level, f: Finding) returns (keys: seq<string>)
    requires LoadedRegistry(reg) && Built(req, a, reg, ev, level, f)
    ensures CoverageOf(a, reg, ev, level, f, keys)
  {
    hide LoadedRegistry, AnythingLanded, DemandsInPlay, JudgedAtLevel, AtLevel, Less, Built, Increasing;
    keys := Keys(AtLevel(DemandsInPlay(a, reg, ev), level));
    CoverageField(req, a, reg, ev, level, f);
    LevelKeysAre(a, reg, ev, level);
    hide Keys;
  }

  lemma LevelIsEmpty(a: Assertion, reg: Registry, ev: Evidence, level: Level)
    requires LoadedRegistry(reg)
    ensures AtLevel(DemandsInPlay(a, reg, ev), level) == [] <==> !exists k :: JudgedAtLevel(a, reg, ev, k, level)
  {
    var keys := Keys(AtLevel(DemandsInPlay(a, reg, ev), level));
    LevelKeysAre(a, reg, ev, level);
    hide LoadedRegistry, DemandsInPlay, JudgedAtLevel, AtLevel, Less, Increasing;
    if keys != [] { assert keys[0] in keys; }
  }

  lemma CoverageField(req: string, a: Assertion, reg: Registry, ev: Evidence, level: Level, f: Finding)
    requires Built(req, a, reg, ev, level, f)
    ensures var at := AtLevel(DemandsInPlay(a, reg, ev), level);
      if level == Recommended && AnythingLanded(a, ev) && at != []
      then |f.missing| <= |at| && f.coverage == Some((|at| - |f.missing|, |at|)) else f.coverage == None
  {
    JudgeableSays(a, reg, ev);
    hide SharedReading, AnythingLanded, ReadEnums, DemandsInPlay, ScopedGroups, UnsureNotes, ReadScope, AtLevel, Missing, OutcomeAt;
  }

  lemma PlainFields(req: string, a: Assertion, reg: Registry, ev: Evidence, level: Level, f: Finding)
    requires LoadedRegistry(reg) && Built(req, a, reg, ev, level, f)
    ensures f.requirement == req && PlainSays(a, reg, ev, level, f)
  {
    if level != Required { OutcomeSays(req, a, reg, ev, level); }
    hide LoadedRegistry, SharedReading, ReadEnums, DemandsInPlay, ScopedGroups, UnsureNotes, AtLevel, Missing, SomethingLost, SomethingUnseen;
  }

  /** One level's finding, in full. */
  lemma LevelSays(req: string, a: Assertion, reg: Registry, ev: Evidence, level: Level, f: Finding)
    requires LoadedRegistry(reg) && Built(req, a, reg, ev, level, f)
    ensures Says(req, a, reg, ev, level, f)
    ensures AtLevel(DemandsInPlay(a, reg, ev), level) == [] <==> !exists k :: JudgedAtLevel(a, reg, ev, k, level)
  {
    hide Built, LoadedRegistry, Noted, NotesWhatItLacks, CoverageSays, NamesMissing, PlainSays, AtLevel, DemandsInPlay, JudgedAtLevel;
    AllNotesSay(req, a, reg, ev, level, f);
    MissingSays(req, a, reg, ev, level, f);
    CoverageCounts(req, a, reg, ev, level, f);
    LevelIsEmpty(a, reg, ev, level);
    PlainFields(req, a, reg, ev, level, f);
  }

  /** The findings of a landed judgement, in level order: the required one
      always, each other one exactly when some attribute is judged at its level,
      and each says what its level's readings say. */
  lemma FindingsOverReadings(req: string, a: Assertion, reg: Registry, ev: Evidence)
    returns (required: Finding, conditional: seq<Finding>, recommended: seq<Finding>, optIn: seq<Finding>)
    requires LoadedRegistry(reg)
    ensures JudgeAgainst(req, a, reg, ev) == [required] + conditional + recommended + optIn
    ensures required.outcome == Verdict(req, a, reg, ev).outcome && Says(req, a, reg, ev, Required, required)
    ensures OneAt(req, a, reg, ev, ConditionallyRequired, conditional)
    ensures OneAt(req, a, reg, ev, Recommended, recommended)
    ensures OneAt(req, a, reg, ev, OptIn, optIn)
  {
    hide Says, LoadedRegistry, DemandsInPlay, SharedReading, ReadEnums, SchemaFinding, AtLevel, FindingsFrom, ScopedGroups, JudgedAtLevel;
    var demands, shared := DemandsInPlay(a, reg, ev), SharedReading(a, ScopedGroups(reg, a.scope), ev);
    var enums := ReadEnums(a, demands, ev);
    FourLevels(req, demands, shared, enums);
    required := SchemaFinding(req, Required, AtLevel(demands, Required), shared, enums);
    conditional := FindingsAt(req, ConditionallyRequired, demands, shared, enums);
    recommended := FindingsAt(req, Recommended, demands, shared, enums);
    optIn := FindingsAt(req, OptIn, demands, shared, enums);
    forall level ensures Says(req, a, reg, ev, level, SchemaFinding(req, level, AtLevel(demands, level), shared, enums))
      ensures AtLevel(demands, level) == [] <==> !exists k :: JudgedAtLevel(a, reg, ev, k, level)
    {
      LevelSays(req, a, reg, ev, level, SchemaFinding(req, level, AtLevel(demands, level), shared, enums));
    }
  }

  ghost predicate OneAt(req: string, a: Assertion, reg: Registry, ev: Evidence, level: Level, fs: seq<Finding>) {
    if exists k :: JudgedAtLevel(a, reg, ev, k, level) then |fs| == 1 && Says(req, a, reg, ev, level, fs[0]) else fs == []
  }
}
