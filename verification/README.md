# Telecraft evaluators, modelled and verified

Telecraft judges what an estate of OpenTelemetry collectors runs against what
its authored documents say it should run. This project models its evaluators
in Dafny and proves what they promise: that a plan fetches everything a verdict
reads, that a verdict over clipped readings survives the missing part, that two
independently written policy evaluators agree, that a red needs a persistent
shortfall, that an audit record replays.

`dafny verify dfyconfig.toml` checks the whole of it.

| files | what they model |
|---|---|
| `Base`, `Numbers`, `Verdicts` | shared vocabulary, sorting, integers as text, outcomes and findings |
| `SchemaModel`, `SchemaScope`, `SchemaJudge`, `SchemaDrift`, `SchemaPlan` | the schema-conformance engine: scope, judgement, drift, fetch plan |
| `SchemaMeaning`, `SchemaFindings`, `PlanMeaning` | its verdict, every finding and the plans, over the readings and the registry file |
| `SchemaStability`, `SchemaAsk`, `SchemaWitness` | what its verdicts keep under more evidence and under reordering, and what does not keep |
| `TextBytes`, `Globs`, `TeamTree`, `CatalogueIndex`, `AllowList`, `Palette`, `PaletteMeaning`, `Compose`, `ComposeExactness` | the allow-list policy, its two evaluators and exactly where they agree |
| `Topologies`, `Replicas`, `Staleness`, `DerivedEstate`, `DerivedRows` | the derived Effective reading and the derived estate |
| `Blueprints`, `Expectation`, `ClaimDerivation`, `ClaimExactness`, `DerivationMeaning` | claims, their derivation, over the trees, the diff and the memo |
| `Dampening`, `Population`, `ClaimJudgement`, `ClaimMeaning` | claims and populations judged over time on a shared clock |
| `Activation`, `Resolution` | the activation record and version resolution |
| `Scoring` | scores and waivers |
| `Selectors` | the claim flow's selector algebra and preview |
| `References`, `Pins`, `ClaimDrift` | references, pins and stamped claims |

A loop in the source is a method with a loop, proved equal to a function of its
inputs; what the source promises is then proved of that function, and stated once
more over the inputs alone, without the function's own helpers. A record the
source updates is a class (`ScopeBuilder`, `PlanBuilder`, `Catalogue`,
`Damper`, `Builder`, `Memo`) or an array written in place (`Scoring.Apply`,
`SchemaDrift.DriftArmInPlace`).

Conventions. Strings are sequences of characters, compared as `sort.Strings`
compares bytes: UTF-8 keeps that order. Where the source takes text byte by byte,
in the pattern matchers, so does the model (`TextBytes`, `Globs`); path.Match is
modelled as Go's library computes it. Instants and durations are nanoseconds as
integers; 64-bit wrap-around and saturation are written out where the source can
meet them (`Staleness`, `Numbers`). Ratios are rationals. Detail and remediation text is
kept only as the tags verdicts depend on. A map lookup that Go answers with the
empty string does so here (`DerivedEstate.Attribute`).

Members ask of their inputs what the loaders leave: well-formed, consistent
trees, a valid indexed catalogue, topologies keyed by id, and a loaded
registry: unique group ids, unique keys in a group, each entry either a definition
or a reference, one definition per attribute, and no members stated on a reference
to nothing in the file. A row
names anything it asks beyond that.

Where the source does less than its comments suggest, the model follows the
source, an input shows it, and the exact condition is proved:

- a clipped name reading can hide an enum attribute
  (`SchemaWitness.APassThatDoesNotSurvive`, `SchemaStability.PassSurvivesExactly`);
- an empty clipped reading can count as a loss
  (`SchemaWitness.ALossThatDoesNotSurvive`, `SchemaStability.LossSurvivesExactly`);
- a huge cadence wraps the staleness horizon
  (`Staleness.HugeCadencesDiffer`, `Staleness.FreshExactly`);
- the scan takes a missing alias for the empty type
  (`CatalogueIndex.OneComponentTwoAnswers`, `CatalogueIndex.Catalogue.LookupIsTheScan`);
- the console's `?` takes a byte where the policy's takes a character, and its wildcards
  cross a slash where the policy's do not (`ComposeExactness.TwoBytesPartThem`,
  `ComposeExactness.TellingPolicyParts`, `ComposeExactness.EvaluatorsAgreeExactly`);
- two rows can join to one arrival key, and one of them loses its claim
  (`ClaimExactness.ARowLosesItsClaim`, `ClaimExactness.EveryRowHasItsClaimExactly`);
- an empty selector value breaks the meet and the attach preview
  (`Selectors.EmptyValuesBreakTheMeet`, `Selectors.SharedIsTheMeetExactly`,
  `Selectors.AttachPreviewCountsMoreExactly`);
- a valid time need not be one an activation stores
  (`Activation.ValidButNeverStored`, `Activation.ValidatorIsReplay`).

## Model

| member | source | states |
|---|---|---|
| `SchemaPlan.PlanNames` | internal/conformance/schema.go:147-174 | The planned name readings are exactly those some applicable landed requirement covers, each once, in order. |
| `SchemaPlan.PlanGroups` | internal/conformance/schema.go:440-469 | The planned group readings are exactly those a scope reached under the pin, or under the active version where the drift arm asks, locates; none twice. |
| `SchemaPlan.PlanValues` | internal/conformance/schema.go:475-512 | The planned value readings are exactly those of the enum attributes a scope reaches whose signal has the attribute in use; none twice. |
| `SchemaPlan.PlanLive` | internal/conformance/schemalive.go:36-52 | The planned live windows are exactly those of the applicable live requirements, each once. |
| `PlanMeaning.NamesAsPlanned` | internal/conformance/schema.go:147-174 | A name reading is planned exactly when some landed schema requirement of the Environment covers its signal over its window. |
| `PlanMeaning.GroupsAsPlanned` | internal/conformance/schema.go:440-469 | Over loaded registries, a group reading is planned exactly when the scope of such a requirement, under its pin or under an active version it does not pin, reaches a named metric group whose signal is covered. |
| `PlanMeaning.ValuesAsPlanned` | internal/conformance/schema.go:475-512 | Over loaded registries, a value reading is planned exactly when such a scope reaches an entry with members whose key the known name reading of that signal holds. |
| `PlanMeaning.LiveAsPlanned` | internal/conformance/schemalive.go:36-52 | A live window is planned exactly when some live schema requirement of the Environment asks for it. |
| `PlanMeaning.PlansAreOrdered` | internal/conformance/schema.go:147-174 | Plans stand in order of window, then of signal name, then of attribute. |
| `SchemaPlan.PlanBuilder.Add` | internal/conformance/schema.go:147-174 | The seen-set step the plan builders share: a reading joins at most once. |
| `SchemaPlan.GatherSchema` | internal/conformance/schema.go:370-423 | What is gathered is exactly what is planned, read from the source that serves it; an unset source gathers nothing; a library that asks nothing gathers nothing. |
| `SchemaPlan.CoveredJudgement` | internal/conformance/schema.go:618-657 | Where the readings one judgement can ask for are in hand, no finding it makes says that no reading covers. |
| `SchemaPlan.UncoveredNotesAre` | internal/conformance/schema.go:618-657 | The notes that say no reading covers are the four for a planned name, group, value or live key. |
| `SchemaPlan.PlanCoversEvaluation` | internal/conformance/schema.go:370-512 | Fetch-plan completeness: with all four sources set, every reference resolved, registries that define each attribute one way and no other copy of the active version filed under its ref, every reading is in hand that a landed requirement's judgement under its pin looks up, and that its judgement under the active version looks up, drift or none, and the window of a live one; no finding of either judgement says no reading covers. |
| `SchemaScope.ResolveScope` | internal/conformance/schema.go:965-1017 | The resolver with its shared accumulator yields the scoped groups the declarative walk gathers. |
| `SchemaScope.VisitsAreWhatTheScopeReaches` | internal/conformance/schema.go:965-1017 | The walk visits exactly the groups named outright and the entries whose key is under a named namespace. |
| `SchemaMeaning.UnderIsInNamespace` | internal/conformance/schema.go:1007-1010 | A key is reached by a namespace exactly when it is the namespace, or the namespace, a dot and something more. |
| `SchemaMeaning.EntryReachedIs` | internal/conformance/schema.go:965-1017 | Over a loaded registry the walk visits an entry exactly when its group is named or its key is in a named namespace. |
| `SchemaMeaning.GroupReachedIs` | internal/conformance/schema.go:965-1017 | And a group is scoped exactly when it is named or holds such an entry. |
| `SchemaScope.ReachedGroups` | internal/conformance/schema.go:965-1017 | In a registry with unique group ids a scope reaches exactly the groups named or touched by a namespace, each once. |
| `SchemaScope.ReachedDemands` | internal/conformance/schema.go:965-1017 | Within a reached group, group ids being unique, the demands are exactly those read off the entries reached. |
| `SchemaScope.ScopeOrderDoesNotMatter` | internal/conformance/schema.go:965-1017 | Authoring the same groups and namespaces in another order reaches the same groups and demands, group ids being unique. |
| `SchemaScope.FlattenDemands` | internal/conformance/schema.go:1066-1083 | Filling a map and walking it in any order, then sorting, gives one answer: the strictest demand of each attribute, in attribute order. |
| `SchemaScope.DemandsInIsTheStrictestMap` | internal/conformance/schema.go:1066-1083 | The flattened list is strictly increasing by attribute and holds exactly the strictest declaration of each. |
| `SchemaScope.StrictestLevelWins` | internal/conformance/schema.go:1066-1083 | An attribute is judged at a level if and only if some group declares it there and none declares it stricter. |
| `SchemaScope.FirstOfTheStrictest` | internal/conformance/schema.go:1066-1083 | Of declarations equally strict the first one seen is the demand judged. |
| `SchemaScope.LevelsIgnoreOrder` | internal/conformance/schema.go:1066-1083 | Groups that declare the same levels for an attribute, in whatever order and grouping, leave it at the same level. |
| `SchemaScope.ValidRegistryHasOneDefinition` | internal/conformance/schema.go:1110-1118 | In a registry with unique ids and bare references, one attribute has one set of members, whichever entry it is reached by. |
| `SchemaScope.DemandsComeFromTheRegistry` | internal/conformance/schema.go:1090-1102 | Every demand is read off an entry of the registry. |
| `SchemaJudge.ReadScopeLoop` | internal/conformance/schema.go:693-732 | The signal loop computes the union of the attributes in use, the worst of what the signals say, and whether anything was clipped. |
| `SchemaJudge.ReadGroupsLoop` | internal/conformance/schemagroup.go:61-111 | The group loop computes the groups in play, and whether any group is absent or unsure. |
| `SchemaJudge.ReadEnumsLoop` | internal/conformance/schemaenum.go:68-131 | The enum loops compute one verdict per enum attribute: the undeclared values seen, or, with none, whether a reading was clipped or missing. |
| `SchemaJudge.ReadEnumsMeaning` | internal/conformance/schemaenum.go:68-131 | Over demands sorted by attribute, exactly those with members have an enum verdict, and it is that demand's. |
| `SchemaJudge.SchemaFindingLoop` | internal/conformance/schema.go:786-882 | One level's finding: outcome, grade, coverage, missing names and notes. |
| `SchemaJudge.JudgeAgainstLoop` | internal/conformance/schema.go:618-657 | The judgement of one requirement against one registry, level by level. |
| `SchemaJudge.ReadingOutcomes` | internal/conformance/schema.go:693-732 | A shared reading is not_delivered when a covered signal never arrived or a group is provably absent, else unknown when one cannot be seen, else compliant. |
| `SchemaJudge.OneScoredFinding` | internal/conformance/schema.go:618-657 | Every judgement yields exactly one scored finding, the required-level verdict, first. |
| `SchemaMeaning.SignalReadings` | internal/conformance/schema.go:693-732 | A covered signal is lost, usable or unseen by its known name reading and whether it landed: as its presence reading says or, without one, as it names anything. |
| `SchemaMeaning.GroupArrival` | internal/conformance/schemagroup.go:61-111 | A group is seen unless it is a named metric group of a covered signal whose known reading lacks its name, and gone when that reading is whole as well. |
| `SchemaMeaning.EnumBreachExactly` | internal/conformance/schemaenum.go:84-158 | A known value reading of an attribute in use breaches its demand exactly when it holds some value that no member states as its value and no valueless member has as its id. |
| `SchemaMeaning.VerdictOverReadings` | internal/conformance/schema.go:618-882 | The required verdict over the readings and a loaded registry's entries: lost, then a required attribute unnamed by whole readings or carrying an undeclared value, then unseen, unnamed or in doubt, else compliant. |
| `SchemaFindings.LevelKeysAre` | internal/conformance/schema.go:1066-1083 | The attributes demanded at a level, in order, are exactly those some seen entry asks for there and none asks for stricter. |
| `SchemaFindings.LevelSays` | internal/conformance/schema.go:786-882 | One level's finding in full: its grade, its outcome below required, exactly the attributes that nothing landed names, the recommended coverage, and exactly the readings it could not use. |
| `SchemaFindings.FindingsOverReadings` | internal/conformance/schema.go:618-657 | Over a loaded registry the findings are the required one and then, in level order, one for each level some attribute is judged at, each saying what its readings say. |
| `SchemaStability.VerdictMeaning` | internal/conformance/schema.go:618-882 | The required verdict with no evaluation order in it: lost outranks wrong shape, wrong shape outranks not knowing, and compliant is none of them. |
| `SchemaStability.WrongShapeSurvives` | internal/conformance/schema.go:786-882 | In a registry that defines each attribute one way, a misconfigured verdict stays at least that severe however truncated readings are completed. |
| `SchemaStability.LossSurvivesExactly` | internal/conformance/schema.go:766-773 | A not_delivered verdict survives every completion if and only if part of the loss rests on a presence reading, a whole name reading or a whole group reading. |
| `SchemaStability.LossStaysSeriousExactly` | internal/conformance/schema.go:766-882 | In a registry that defines each attribute one way, a not_delivered verdict stays at least as severe as misconfigured under every completion if and only if the loss is settled or a required attribute already carries an undeclared value. |
| `SchemaWitness.ALossThatDoesNotSurvive` | internal/conformance/schema.go:766-773 | A concrete reading: empty, clipped, no presence beside it. not_delivered now, compliant once completed. |
| `SchemaStability.PassSurvivesExactly` | internal/conformance/schemaenum.go:84-115 | A compliant verdict survives every completion if and only if no clipped name reading can hide a required enum attribute. |
| `SchemaWitness.APassThatDoesNotSurvive` | internal/conformance/schemaenum.go:84-115 | Concrete readings: a required enum attribute whole and clean on logs, metrics clipped. Compliant now, misconfigured once the clipped names are known. |
| `SchemaStability.PassSurvivesOnOneSignal` | internal/conformance/schemaenum.go:84-115 | On one covered signal, compliant always survives completion. |
| `SchemaAsk.GroupPartition` | internal/conformance/schemagroup.go:61-111 | Each scoped group lands in exactly one of in play, absent or unsure, and which one is what its own reading says. |
| `SchemaAsk.AttributeJudgedOnce` | internal/conformance/schema.go:636-656 | An attribute in play is judged in exactly one level's finding: the strictest level a group in play declares it at. |
| `SchemaAsk.LevelIgnoresScopeOrder` | internal/conformance/schema.go:965-1017 | The level an attribute is judged at does not depend on authoring order, group ids being unique. |
| `SchemaAsk.SameAskSameVerdict` | internal/conformance/schema.go:618-657 | Two registries that ask the same of a scope, each defining an attribute one way, give one verdict on any evidence. |
| `SchemaAsk.VerdictIgnoresScopeOrder` | internal/conformance/schema.go:965-1017 | In a registry with unique ids and bare references, authoring order never moves a verdict. |
| `SchemaDrift.JudgeLiveLoop` | internal/conformance/schemalive.go:63-112 | The live arm: its base outcome, and one finding per level its records fall on. |
| `SchemaDrift.LiveVerdictMeaning` | internal/conformance/schemalive.go:63-133 | One scored finding, first: misconfigured exactly when a readable window has a covered required-level record, however the tap fares; compliant exactly when it has none and the tap is known to be fed, with no send failures and nothing clipped; otherwise unknown, never not_delivered. A window with no reading, or an unreadable one, leaves that finding alone, saying which. |
| `SchemaDrift.LiveFindingsAre` | internal/conformance/schemalive.go:63-133 | After it, for each level below required, one finding exactly when a covered record lands there by its name or, under another name, by its severity. |
| `SchemaDrift.DriftArmInPlace` | internal/conformance/schemadrift.go:63-85 | Overwriting the scored finding in place computes the drift arm and touches no other slot. |
| `SchemaDrift.JudgeSchemaLoop` | internal/conformance/schema.go:592-610 | The whole schema judgement: live, no registry, or pinned with drift. |
| `SchemaDrift.DriftIsExactly` | internal/conformance/schemadrift.go:63-105 | A finding becomes library_drift exactly when the reference pins a non-active version, the pinned verdict is compliant and the active one is a provable failure; count, grades and every other finding are unchanged. |
| `SchemaDrift.DriftedFinding` | internal/conformance/schemadrift.go:86-105 | The drifted finding names both versions and carries what the active verdict is missing and could not use. |
| `SchemaDrift.WhichJudgement` | internal/conformance/schema.go:592-610 | A live placement is judged live, an unknown registry gives one unknown finding naming it, and a tracking one is judged against the head alone. |
| `SchemaDrift.NoDriftInJudgement` | internal/conformance/schema.go:618-657 | The judgement against one version never names drift itself. |
| `SchemaDrift.SameAskNeverDrifts` | internal/conformance/schemadrift.go:63-85 | A pinned and an active registry that ask the same of the scope, each defining an attribute one way, never drift. |
| `TextBytes.WidthOfEncoding` | internal/allowlist/allowlist.go:80-93 | Decoding a character where its encoding stands gives its width, so the loader's `?` takes a whole character. |
| `Globs.PathMatchIs` | internal/allowlist/allowlist.go:80-93 | Go's path.Match, chunk by chunk and never going back, decides the relation on every name of one-byte characters without a slash. |
| `Globs.PathMatchTakesNoSlash` | internal/allowlist/allowlist.go:80-93 | Under a pattern without a slash it accepts no name with one, whatever its bytes. |
| `Globs.QueriesCountCharacters` | internal/allowlist/allowlist.go:80-93 | A run of `?` accepts exactly the slash-free names of that many characters. |
| `Globs.AStarMayStartInsideACharacter` | internal/allowlist/allowlist.go:80-93 | Its star skips bytes: `*??` accepts one three-byte character that `??` does not. |
| `Globs.GlobMatch` | internal/instance/compose.go:306-340 | The console's two-cursor matcher accepts exactly the subjects whose bytes fall into one run per byte of the pattern, `?` taking one byte and star any. |
| `Globs.QueriesCountBytes` | internal/instance/compose.go:306-340 | A run of `?` accepts exactly the names of that many bytes. |
| `Globs.MatchersAgreeExactly` | internal/instance/compose.go:306-340 | The two matchers agree on a name, for every pattern that loads, if and only if all its characters are one byte and none is a slash. |
| `TeamTree.ChainUp` | internal/allowlist/palette.go:137-147 | Walking parent pointers and reversing gives the chain from the root, and fails exactly on an unknown team. |
| `TeamTree.IsProperAncestor` | internal/allowlist/load.go:216-223 | The upward walk decides proper ancestry. |
| `TeamTree.WalkFindsTheChain` | internal/console/project.go:491-500 | Searching the projected tree depth-first finds exactly the teams below its root, by the chain the parent pointers give. |
| `TeamTree.ChainsAgree` | internal/instance/compose.go:188-206 | In a single-root tree the searched chain is the parent-pointer chain; an unknown team has none. |
| `CatalogueIndex.Validate` | internal/catalogue/catalogue.go:249-345 | No problem is reported if and only if the format is the supported one, repository and ref are recorded, and the components are non-empty, each well declared down to its stability levels and deprecation notices, and unambiguous. |
| `CatalogueIndex.ValidCatalogueExactly` | internal/catalogue/catalogue.go:249-345 | Valid spelled out: the five classes, the six levels, a notice for each deprecated signal and no other, and within a class no shared type, no shared alias and no alias that is a type. |
| `CatalogueIndex.Catalogue.Index` | internal/catalogue/catalogue.go:227-243 | Indexing sorts the components, loses none, and leaves both tables exact. |
| `CatalogueIndex.Catalogue.LookupIsTheScan` | internal/catalogue/catalogue.go:175-184 | Over a valid catalogue the index answers as the console's scan does if and only if the type is non-empty or no component of the class lacks an alias. |
| `CatalogueIndex.OneComponentTwoAnswers` | internal/instance/compose.go:344-351 | One component without an alias and the empty type: the index finds nothing and the scan finds the component. |
| `CatalogueIndex.Catalogue.AliasFindsTheComponent` | internal/catalogue/catalogue.go:175-184 | A component is found under its type and under its alias. |
| `CatalogueIndex.TypeEntry` | internal/instance/compose.go:344-351 | The scan returns an entry that answers, and none only when none does. |
| `CatalogueIndex.AtMostOneAnswers` | internal/catalogue/catalogue.go:249-299 | For a named type, at most one component of a valid catalogue answers. |
| `AllowList.EntryRoundTrip` | internal/allowlist/allowlist.go:56-74 | Parsing and rendering an entry are mutually inverse, and exactly the entries of the vocabulary come back. |
| `AllowList.EntryReadsExactly` | internal/allowlist/allowlist.go:56-70 | A text is an entry exactly when it is one of the five classes, a slash and a non-empty pattern without bracket, backslash or slash. |
| `AllowList.ParseEntries` | internal/allowlist/load.go:183-212 | Entries are accepted exactly when each parses, selects something and is not repeated. |
| `AllowList.LoadLists` | internal/allowlist/load.go:78-105 | Lists load exactly when every document is valid and no team has two. |
| `AllowList.LoadGrants` | internal/allowlist/load.go:123-157 | Grants load exactly when every document is valid, ids are unique and the owner's team is a proper ancestor of the target. |
| `AllowList.Load` | internal/allowlist/load.go:52-159 | A policy loads if and only if the rules admit its documents, holds what was authored, and files every Grant under its target in id order. |
| `Palette.EffectivePalette` | internal/allowlist/palette.go:60-112 | The nested loops return the entries of the chain walk over the whole catalogue, and fail exactly on an unknown team. |
| `PaletteMeaning.PaletteListsExactly` | internal/allowlist/palette.go:60-114 | The list returned: exactly the components of the Catalogue the recursive policy admits, each once, in Catalogue order, each with its origin and, where a list left it out, the Grant that last let it back in. |
| `PaletteMeaning.MayIs` | internal/allowlist/palette.go:72-92 | That policy over the authored lists and Grants: what the parent may use and the list allows, and what a Grant to the team selects. |
| `Palette.WalkIsThePolicy` | internal/allowlist/palette.go:60-112 | The walk admits a component exactly when the recursive policy does: the parent may and the list admits, or a Grant adds it. |
| `Palette.PaletteEquation` | internal/allowlist/palette.go:60-112 | palette(T) = (palette(parent) ∩ list(T)) ∪ grants(T), over the whole catalogue above a root. |
| `Palette.PaletteIsTheSet` | internal/allowlist/palette.go:60-112 | The entries returned are exactly that set. |
| `Palette.Provenance` | internal/allowlist/palette.go:75-109 | The origin is a Grant exactly when some list on the chain excludes the component, and it is the one that last re-admitted it. |
| `Palette.LeastGrant` | internal/allowlist/palette.go:85-100 | The Grant named is the least by id among those that select the component there. |
| `Palette.WideningIsFromAbove` | internal/allowlist/load.go:123-157 | What a team may use and its parent may not is there by a Grant from a proper ancestor; the root is never widened. |
| `Palette.PaletteIsMonotone` | internal/allowlist/palette.go:60-112 | Longer lists and more Grants never take a component away. |
| `Palette.NarrowsDownTheTree` | internal/allowlist/palette.go:60-112 | Without Grants a palette only shrinks on the way down. |
| `Palette.EditsStayInTheSubtree` | internal/allowlist/palette.go:60-112 | An edit at one team changes only palettes in its subtree, provenance included. |
| `Palette.Allows` | internal/allowlist/palette.go:119-134 | Allows answers for the component the index resolves, and no for one it does not. |
| `Palette.AliasIsOneAnswer` | internal/allowlist/palette.go:119-134 | An alias and its canonical type get one answer. |
| `Compose.JudgeMembership` | internal/instance/compose.go:221-278 | The console's evaluator computes the membership its own documents give; an entry the catalogue lacks is not allowed. |
| `Compose.MembershipCredits` | internal/instance/compose.go:221-278 | For any bundle: what is not allowed is credited to nothing, and a grant credited is a document of a team on the chain that selects, by its author's team or else its author. |
| `Compose.LastListWins` | internal/instance/compose.go:221-240 | Of two documents for one team the later is its list. |
| `Compose.EntriesAgree` | internal/instance/compose.go:293-302 | Where both names of a component are of one-byte characters and neither crosses a slash, the console's entry matcher and the policy's select it by the same entries. A name crosses when it holds a slash and the other name does not shadow it: slash-free, as long, and equal at every byte a pattern can spell. |
| `Compose.EntriesAgreeExactly` | internal/instance/compose.go:293-302 | The two read every entry of the vocabulary alike, for a component of a pipeline class, if and only if both its names are of one-byte characters and neither crosses a slash. |
| `Compose.GrantsAgree` | internal/instance/compose.go:253-268 | For a component of such names the first matching document by id is the first matching Grant. |
| `Compose.EvaluatorsAgree` | internal/instance/compose.go:221-278 | For every loaded policy over a single-root tree, every team in it and every component of such names, the two evaluators give the same flag, origin and Grant. |
| `ComposeExactness.EvaluatorsAgreeExactly` | internal/instance/compose.go:221-278 | They agree on a well-declared component, under every loaded policy over a valid catalogue that holds it, every projection and every team, if and only if both its names are of one-byte characters and neither crosses a slash. |
| `ComposeExactness.TwoBytesPartThem` | internal/instance/compose.go:306-340 | A type of one two-byte character: `?` selects it at the policy alone, `??` at the console alone, and some policy is answered differently. |
| `ComposeExactness.ASlashMayBeShadowed` | internal/instance/compose.go:293-302 | A slash alone does not part them: a type a/b with the alias axb is judged alike under every policy. |
| `ComposeExactness.TellingPolicyLoads` | internal/allowlist/load.go:52-159 | For every other component the policy that tells the two apart is one the load accepts, over a valid catalogue. |
| `ComposeExactness.TellingPolicyParts` | internal/instance/compose.go:221-278 | Under it exactly one of the two lets the component in. |
| `Compose.UnknownTeamIsNotGoverned` | internal/instance/compose.go:188-278 | They part on a team outside the tree: the console judges it ungoverned where the policy refuses. |
| `Replicas.ConfigKeyLoop` | internal/conformance/derive.go:237-244 | The loop builds the comparison key: rendered pipelines, sorted, one to a line. |
| `Replicas.LineEnds` | internal/conformance/derive.go:240 | A rendered pipeline tells where it ends, so no rendering is a prefix of another. |
| `Replicas.KeysAgreeExactly` | internal/conformance/derive.go:237-244 | Two pipeline lists share a key if and only if they are permutations of each other, component order inside a pipeline kept. |
| `Staleness.ForEvaluationLoop` | internal/estate/staleness.go:70-77 | Every collector is demoted under the estate's own cadence, the estate read from untouched. |
| `Staleness.CollectorForEvaluationInPlace` | internal/estate/staleness.go:48-66 | Each of the three readings is demoted on its own age, and keeps its timestamp. |
| `Staleness.CollectorDemotes` | internal/estate/staleness.go:28-66 | For a cadence whose triple fits a duration: each reading stays within three cadences of its own age and becomes unseen with its cause past them; without a cadence every one does. |
| `Staleness.FreshExactly` | internal/estate/staleness.go:28-39 | Readings survive at every two instants exactly when a positive cadence is declared and no more than three of them have gone by, if and only if the cadence is at most a third of the duration range; without a positive one, and only then, everything is demoted for want of a cadence. |
| `Staleness.HorizonIsThreeCadencesExactly` | internal/estate/staleness.go:17-22 | For a positive cadence the horizon is three cadences if and only if the 64-bit product does not wrap. |
| `Staleness.NewestIsDemotedExactly` | internal/estate/staleness.go:17-39 | A positive cadence demotes a reading taken this instant if and only if the product wraps to a negative horizon. |
| `Staleness.HugeCadencesDiffer` | internal/estate/staleness.go:17-39 | Past the bound both happen: one cadence over it demotes the newest reading, the greatest cadence keeps it. |
| `Staleness.DemotionIsFinal` | internal/estate/staleness.go:41-66 | Demotion is idempotent, keeps the timestamp, and holds at every later instant. |
| `DerivedEstate.FirstTiersLoop` | internal/conformance/derive.go:183-199 | The first Tiers of the Paths into an Environment, once each, in id order. |
| `DerivedEstate.MatchedLoop` | internal/conformance/derive.go:133-141 | The matched collectors are those some selecting Tier selects, in reading order. |
| `DerivedEstate.ConfigsLoop` | internal/conformance/derive.go:164-168 | The grouping has one entry per distinct config reported. |
| `DerivedEstate.EffectiveForLoop` | internal/conformance/derive.go:114-177 | The loops compute a row's reading, with its cause where there is none. |
| `DerivedEstate.KnownExactly` | internal/conformance/derive.go:114-177 | A row is Known if and only if somebody is attributed to it through a Path that opens on a selecting Tier of its Environment, everybody attributed is known and fresh, and no two disagree on more than pipeline order; it is then what each of them says. |
| `DerivedEstate.ReadingExactly` | internal/conformance/derive.go:114-177 | The whole reading over the topology and the collectors: no first Tier selects, nobody is attributed, so many of so many cannot be read, so many different things are said, or what the first one says. |
| `DerivedEstate.FirstTiersAre` | internal/conformance/derive.go:183-199 | The first Tiers of a row are exactly those a Path opens on in its Environment, each once, in id order. |
| `DerivedEstate.CollectorOrderIsIrrelevant` | internal/conformance/derive.go:114-177 | Reordering collectors changes at most the order of the pipelines reported. |
| `DerivedRows.EnvironmentsOfLoop` | internal/conformance/derive.go:203-219 | The distinct named Environments among the first Tiers, sorted. |
| `DerivedRows.DeriveLoop` | internal/conformance/derive.go:52-109 | The maps, the two passes and the stable sort compute the derived rows. |
| `DerivedRows.DerivedRowsAre` | internal/conformance/derive.go:52-109 | A row is in the estate exactly when a Path routes it and it is the last row authored for it, marked, or with none the reading under the Service's class and last onboarding date; or it is authored, marked, for a row no Path routes. |
| `DerivedRows.DerivedIsSorted` | internal/conformance/derive.go:102-108 | Rows stand in Service order and, within a Service, in Environment order. |
| `DerivedRows.AuthoredSurvivesExactly` | internal/conformance/derive.go:55-58 | An authored row survives if and only if no Path routes its row or the last one authored for that row says the same. |
| `DerivedRows.DerivedEstateIsTheUnion` | internal/conformance/derive.go:52-109 | With one authored row each: strictly sorted, one row per key of the union, authored rows whole and marked overridden, the rest read off the collectors. |
| `Expectation.KeysEqualExactly` | internal/expectation/expectation.go:131-140 | Whatever the ids hold, two keys are equal if and only if the claims are of one kind and their ids join to one text. |
| `Expectation.ArrivalKeysEqualExactly` | internal/expectation/expectation.go:131-140 | Two arrival claims share a key if and only if service, separator and environment join to one text and the signal is one. |
| `Expectation.KeysNameSubjects` | internal/expectation/expectation.go:131-140 | Claims about one thing share a key, and where no id holds the separator only they do. |
| `Expectation.KeyTexts` | internal/expectation/expectation.go:131-140 | The texts themselves. |
| `Expectation.IdentityTexts` | internal/expectation/expectation.go:244-249 | A claim is told from another under its key by the value it writes or the shape it expects. |
| `Expectation.IdentitiesEqualExactly` | internal/expectation/expectation.go:244-249 | Claims that share a key are one claim for the difference exactly when they write one value and expect one shape. |
| `Expectation.ForTierLoop` | internal/expectation/expectation.go:168-176 | The pipeline claims on one Tier, in order. |
| `Expectation.ForRowLoop` | internal/expectation/expectation.go:180-188 | The data claims of one row, in order. |
| `Expectation.RowAttributes` | internal/expectation/expectation.go:194-205 | The attributes a row's enrichment claims name for a signal, exactly, once each, sorted. |
| `Expectation.DiffLoop` | internal/expectation/expectation.go:222-242 | Added and removed are the claims whose identity the other set lacks, order kept. |
| `Expectation.DiffPatches` | internal/expectation/expectation.go:222-249 | (before − removed) ∪ added = after by identity; nothing is both; the reverse difference is the swap. |
| `Expectation.EmptyDiffExactly` | internal/expectation/expectation.go:213-242 | The difference is empty if and only if both sets claim the same identities. |
| `ClaimDerivation.Builder.Add` | internal/expectation/derive.go:41-50 | Adding by key: a new key appends, a known one merges the backing Tiers in place; the index stays exact. |
| `ClaimDerivation.MergeTiersLoop` | internal/expectation/derive.go:243-254 | The union of two Tier lists, sorted, once each. |
| `ClaimDerivation.TraversedTiersLoop` | internal/expectation/derive.go:228-241 | The Tiers a Service's Paths go through, once each, sorted. |
| `ClaimDerivation.PlacedLoop` | internal/expectation/derive.go:192-213 | The Components a Blueprint places, the first of each rendered id, sorted by it. |
| `ClaimDerivation.DeriveLoop` | internal/expectation/derive.go:36-154 | The nested loops collect every claim the artefact states and sort by key. |
| `ClaimDerivation.CollectedMeans` | internal/expectation/derive.go:41-50 | One claim per key added, and it is the first added under that key, backed by the sorted union of their Tiers. |
| `ClaimExactness.DerivedIsKeyed` | internal/expectation/derive.go:36-154 | Derivation yields strictly increasing keys, exactly those added. |
| `ClaimExactness.StreamIs` | internal/expectation/derive.go:97-149 | The data claims added are exactly those a Tier on a Path of the Service, binding a resolvable Blueprint, states. |
| `DerivationMeaning.DataStreamedExactly` | internal/expectation/derive.go:97-149 | Over the trees: a data claim is streamed exactly when a Tier on a Path of its Service binds a resolvable Blueprint whose lane for the signal is authored and, for an enrichment, a processor in that lane inserts it; it carries the Tier's Environment and id. |
| `DerivationMeaning.PipelineStreamedExactly` | internal/expectation/derive.go:54-85 | A pipeline claim is streamed exactly when a Tier binds a resolvable Blueprint one of whose signal lanes places a resolvable Component that is not an extension; it carries the Tier's id, the class's kind, the rendered id of the first such Component, and the unidentified shape exactly for memory_limiter. |
| `DerivationMeaning.PipelineDerivedExactly` | internal/expectation/derive.go:36-154 | Those derived are streamed, one for every key streamed; with no separator in a Tier's id, exactly those streamed. |
| `DerivationMeaning.EnrichmentExactly` | internal/expectation/derive.go:41-149 | Where several insertions are written under one key, the first of them by Service, Tier, lane, entry and place says whose value stands, and exactly their Tiers back it. |
| `ClaimExactness.ArrivalExactly` | internal/expectation/derive.go:97-130 | For every row and signal of a keyed topology: only a routed row has an arrival claim, none has two, and a routed row has its own, with exactly the Tiers that route it, if and only if no other routed row of the signal joins to the same text. |
| `ClaimExactness.EveryRowHasItsClaimExactly` | internal/expectation/derive.go:36-154 | Every routed row of a source has its own claim if and only if no two of them join to one text. |
| `ClaimExactness.PipeFreeRowsKeepTheirClaims` | internal/expectation/derive.go:97-130 | The separator kept out of the Service ids, or out of the Environments, is enough for every routed row to have its own claim. |
| `ClaimExactness.ARowLosesItsClaim` | internal/expectation/derive.go:41-50 | A concrete source, two routed rows that join to one text: neither has its own claim and exactly one has any. |
| `ClaimExactness.Memo.DeriveOnce` | internal/expectation/memo.go:31-40 | The memo answers with what it holds for the commit, or derives and files it. |
| `ClaimExactness.MemoRun` | internal/expectation/memo.go:31-40 | Over any run of calls, each answer is the derivation of the first source of its commit. |
| `ClaimExactness.MemoIsTransparent` | internal/expectation/memo.go:31-40 | Where a commit determines the trees, that is the source asked for. |
| `Dampening.Damper.Observe` | internal/inventory/findings.go:222-233 | A met floor clears the key's clock, the first shortfall starts it, a standing one keeps it; no other key's clock moves. |
| `Dampening.Damper.ClearShortfall` | internal/expectation/evaluate.go:462-464 | Clearing removes the key's clock and nothing else. |
| `Dampening.RedExactly` | internal/expectation/evaluate.go:187-245 | Over any forward run on one clock, red at an evaluation if and only if an unbroken silence of that claim reaches back a whole grace window. |
| `Dampening.ResetHoldsRedOff` | internal/expectation/evaluate.go:187-245 | Any settling, unknown, gated or met evaluation buys the claim a whole fresh grace window. |
| `Population.JudgePopulation` | internal/inventory/findings.go:131-197 | The findings of one Tier's population: the conflict of floors, the neutral or escalated never_seen, the under-populated violation, or none. |
| `Population.PopulationFindingsAre` | internal/inventory/findings.go:86-197 | A conflict of floors first, then a violation where a floor above zero has been missed a whole grace window, or the neutral finding of a Tier never seen, stale past its window; each with its floor, count and instant. |
| `Population.ObservePopulation` | internal/inventory/findings.go:222-233 | Observing a population moves only its own Tier's clock and records what the clock says. |
| `Population.ViolationExactly` | internal/inventory/findings.go:131-233 | Over any forward run of observations on one clock, a Tier's population is a violation if and only if it has been short of its live or declared floor at every observation back a whole grace window. |
| `ClaimJudgement.JudgeDataClaim` | internal/expectation/evaluate.go:187-245 | One data claim: its evidence, the clock moved by it, and the status and onset the clock gives. |
| `ClaimJudgement.IsBacked` | internal/expectation/evaluate.go:251-268 | Backed exactly when a Requirement applying in the Environment demands what the claim asserts. |
| `ClaimJudgement.EvaluateRow` | internal/expectation/evaluate.go:162-182 | A row's claims judged in order on the shared clock; one advisory for each unbacked red and nothing else. |
| `ClaimJudgement.ObservedComponents` | internal/expectation/evaluate.go:431-450 | The identified and unidentified sets are exactly what the known self-telemetry signals report. |
| `ClaimJudgement.EvaluateTier` | internal/expectation/evaluate.go:314-385 | Refused exactly when the set derives elsewhere, touching no clock; otherwise gated, settling or judged, with a delivery finding for each population finding, then one violation for each red; gated, the delivery findings alone. |
| `ClaimJudgement.SeedDamper` | internal/console/judge.go:449-457 | Seeding starts only clocks not running, at the given instant; a zero instant seeds nothing. |
| `ClaimJudgement.Run` | internal/console/judge.go:25-50 | Any mix of row and Tier calls on one clock answers each claim as the clock stands after all that was asked before. |
| `ClaimJudgement.RunRedExactly` | internal/expectation/evaluate.go:187-385 | Red over a whole run of calls, exactly, however the calls for other rows and Tiers are mixed in. |
| `ClaimMeaning.RunOverReadings` | internal/expectation/evaluate.go:162-460 | Over any forward run, for each claim judged: red exactly when every evaluation of it back a whole grace window was readable, settled and unmet; green when its readings meet it; pending inside the settle window or with an unmet reading not yet that old; otherwise unknown. |
| `ClaimMeaning.NamesAre` | internal/selftelemetry/selftelemetry.go:128-166 | Reported attributes name a component by the first legacy key there is or, without one, by a scope kind that is no graph node and an id; with no id, the kind alone. |
| `ClaimMeaning.BackedIsAskedFor` | internal/expectation/evaluate.go:251-268 | Backed exactly when a Requirement of the Environment asserts the signal and, for an enrichment, requires the attribute. |
| `ClaimMeaning.RowRaises` | internal/expectation/evaluate.go:162-182 | A row raises one advisory on its Service for each red claim nobody asked for, in order. |
| `ClaimMeaning.TierRaises` | internal/expectation/evaluate.go:344-385 | A Tier raises one violation for each red claim, in order. |
| `Activation.ProblemsLoop` | internal/activation/activation.go:284-341 | The validator's loop collects every problem of a designation. |
| `Activation.ProblemsStand` | internal/activation/activation.go:284-341 | Each problem is reported once, exactly when it stands: of the designation, or of the act it numbers against the version in force before it. |
| `Activation.ProblemFreeIsSound` | internal/activation/activation.go:284-341 | None is exactly a sound designation: every act replaces the one before it by another version, says when, who and on what report, and the last one is active. |
| `Activation.Designate` | internal/activation/activation.go:393-422 | The transition copies the history, extends it and validates the record it leaves. |
| `Activation.Apply` | internal/activation/activation.go:352-381 | The report's own consistency is checked first, in order. |
| `Activation.DesignatesExactly` | internal/activation/activation.go:393-422 | For every record, an activation succeeds if and only if kind, version, owner, report and time are sound, the section can be extended and the other one is valid. |
| `Activation.DesignatedExactly` | internal/activation/activation.go:393-422 | An activation over the record's fields: the first thing it lacks refuses it, and otherwise it is recorded exactly when what it leaves is sound, one act longer, with the other section as it was. |
| `Activation.AppliedExactly` | internal/activation/activation.go:352-381 | A report is checked in order: substrate, its own, version, owner, the version it starts from, the one it goes to. |
| `Activation.CanonicalIs` | internal/activation/activation.go:407-413 | The stored time is the last whole second not after it, in UTC. |
| `Activation.DesignationExtends` | internal/activation/activation.go:393-422 | The record left is valid, one act longer, active at the version, and its other substrate as it was. |
| `Activation.AppliesExactly` | internal/activation/activation.go:352-381 | Over a valid record, a report applies if and only if it is about this substrate, starts from the active version and goes elsewhere. |
| `Activation.ValidatorIsReplay` | internal/activation/activation.go:284-341 | A designation has no problem, with times as stored, if and only if designating its acts in turn from the empty record rebuilds it. |
| `Activation.ValidButNeverStored` | internal/activation/activation.go:284-422 | A time off the second is valid but never stored by an activation. |
| `Activation.RunsKeep` | internal/activation/activation.go:352-422 | Over every run of decisions the record stays valid, histories only extend, active is the last act's version and a substrate not decided on is untouched. |
| `Activation.RunSteps` | internal/activation/activation.go:352-422 | Each decision of a run is an activation or an applied report; granted, its record stands, and refused, the record held before. |
| `Resolution.ParseVersionLoop` | internal/activation/resolve.go:106-120 | A tag parses to three non-negative numbers or not at all. |
| `Resolution.TaggedIs` | internal/activation/resolve.go:106-120 | A tag parses exactly when, without one leading v, it is three non-negative numbers with dots between. |
| `Resolution.BelowIs` | internal/activation/resolve.go:77-130 | An installed tag is a candidate exactly when both parse and its numbers precede, major first, then minor, then patch. |
| `Resolution.NearestOlder` | internal/activation/resolve.go:77-99 | The version returned is installed, older, and no older installed one is newer; none is returned exactly when none is older. |
| `Resolution.Judge` | internal/activation/resolve.go:50-71 | Exact when installed, else degraded to the nearest older, else unknown, each exactly when. |
| `Resolution.VersionOrder` | internal/activation/resolve.go:122-130 | The version comparison is a strict total order. |
| `Resolution.SplitJoins` | internal/activation/resolve.go:106-110 | Splitting a tag at its dots loses nothing. |
| `Scoring.ScoreLoop` | internal/conformance/conformance.go:330-353 | The tally of a verdict's findings. |
| `Scoring.WorstLoop` | internal/conformance/conformance.go:361-372 | The worst counting violation. |
| `Scoring.SeverityOrder` | internal/conformance/conformance.go:129-148 | The outcomes from the most severe to the least. |
| `Scoring.ScoreConserves` | internal/conformance/conformance.go:330-353 | Total = Passing + Waived + Failing, the grades partition the findings, and each tally counts exactly the findings of its grade, outcome and waiver. |
| `Scoring.RatioMeans` | internal/conformance/conformance.go:320-326 | The ratio times what counts is what passes; it is in [0, 1], and 1 if and only if nothing fails. |
| `Scoring.WorstMeans` | internal/conformance/conformance.go:361-372 | The worst outcome is a counting violation's, none is more severe, and it is compliant without one. |
| `Scoring.ExemptionForLoop` | internal/conformance/waivers.go:67-90 | The search loop finds the first exemption that covers. |
| `Scoring.FirstCoverWins` | internal/conformance/waivers.go:67-90 | Everything before the credited exemption covers nothing, and an unresolvable scope before it is an error. |
| `Scoring.WaiverExactly` | internal/conformance/waivers.go:35-90 | A passing finding is left alone; any other is decided by the first exemption that exempts it or cannot be resolved, then by the Grace Period, and otherwise stands. |
| `Scoring.Apply` | internal/conformance/waivers.go:35-62 | In place: waived up to the first failure, untouched from there, the failure reported. |
| `Scoring.WaiversConserve` | internal/conformance/waivers.go:35-62 | Outcomes, grades and details survive; counts move only from failing to waived; the ratio never falls and the worst outcome never rises. |
| `Scoring.WaivingTwiceIsOnce` | internal/conformance/waivers.go:35-62 | At one instant a second application changes nothing. |
| `Scoring.RawFindingReturns` | internal/conformance/waivers.go:31-35 | Past every expiry and outside Grace, nothing is newly waived. |
| `Selectors.MatchesAttributes` | internal/instance/claim.go:97-104 | The loop decides whether every authored pair equals the reported attribute. |
| `Selectors.SharedPairsLoop` | internal/instance/claim.go:108-116 | The loop computes the agreed pairs. |
| `Selectors.ContradictsLoop` | internal/instance/claim.go:121-128 | The loop decides whether some carried key disagrees. |
| `Selectors.SharedIsTheMeetExactly` | internal/instance/claim.go:108-116 | The shared pairs are the greatest common sub-selector if and only if the second selector carries the valueless keys of the first, and the same from either side if and only if each carries the other's. |
| `Selectors.OrderIsReach` | internal/instance/claim.go:97-104 | Every pair of one selector is a pair of another if and only if it matches whatever the other matches. |
| `Selectors.EmptyValuesBreakTheMeet` | internal/instance/claim.go:108-116 | With an empty value the two sides differ. |
| `Selectors.AttachReachesExactly` | internal/instance/claim.go:230-260 | Attaching reaches everything the claim reaches, for all collectors, if and only if the claim carries the valueless keys of the Tier. |
| `Selectors.EitherMatchesShared` | internal/instance/claim.go:97-116 | A collector matching the first selector matches the shared pairs; one matching the second does if and only if it reports nothing under a valueless key of the first that the second lacks. |
| `Selectors.ContradictionIsDisjointness` | internal/instance/claim.go:121-128 | No contradiction if and only if some attributes satisfy both. |
| `Selectors.EvaluateClaim` | internal/instance/claim.go:230-303 | The preview: counts, overlaps, and candidates with their cards, ranked. |
| `Selectors.PreviewExactly` | internal/instance/claim.go:230-303 | The preview over what was authored and reported: the ungoverned rows taken and how they are read, every other Tier the claim does not contradict, and every Tier sharing a pair with it, the nearest first, each with its first card's texts. |
| `Selectors.CandidatesAreRanked` | internal/instance/claim.go:262-298 | The candidates are exactly the Tiers sharing a pair with the claim, each once with its card, strictly ranked: most pairs satisfied, then the smaller selector, then the name. |
| `Selectors.AttachPreviewCountsMoreExactly` | internal/instance/claim.go:230-260 | Whatever the collectors, the attach preview counts at least what the claim alone reaches, in every column, if and only if the claim carries the valueless keys of the Tier it names. |
| `Selectors.EmptyValuesLoseCollectors` | internal/instance/claim.go:230-260 | A concrete preview with an empty authored value that counts fewer. |
| `Selectors.OverlapsAre` | internal/instance/claim.go:252-260 | The overlaps are exactly the other Tiers some collector could match as well. |
| `References.ParseReferenceSteps` | internal/blueprint/blueprint.go:139-165 | The step-by-step parse of a reference. |
| `References.ReferenceReads` | internal/blueprint/blueprint.go:139-165 | Nothing is no reference; behind the last @ stands a positive pin or the pin is bad; the rest is the name part. |
| `References.NameReads` | internal/blueprint/blueprint.go:151-165 | A name part: empty, a bare local name, or a team and a name with one slash between. |
| `References.ReferenceRoundTrip` | internal/blueprint/blueprint.go:129-165 | Parsing inverts printing for exactly the well-formed references. |
| `References.ParsedIsWellFormed` | internal/blueprint/blueprint.go:139-165 | Whatever parses is well formed, so it prints to something that parses back to it. |
| `References.PinsAreNormalised` | internal/blueprint/blueprint.go:139-165 | A padded, signed pin is read as the number it means. |
| `References.StampRoundTrip` | internal/blueprint/blueprint.go:205-222 | Claim parsing inverts printing exactly on a named requirement and a positive version; ids may contain @. |
| `References.StampReads` | internal/blueprint/blueprint.go:205-222 | A claim is a requirement and, behind the last @, a positive version; anything else says why not. |
| `References.ParsedStampsRoundTrip` | internal/blueprint/blueprint.go:205-222 | An accepted claim prints to something that parses back to it. |
| `Numbers.AtoiReadsBack` | internal/blueprint/blueprint.go:145-150 | A printed integer is read back if and only if it fits 64 bits. |
| `Numbers.ItoaIsPlain` | internal/blueprint/blueprint.go:127-135 | A printed integer has no leading zero, and a sign only where it is negative. |
| `Numbers.AtoiReads` | internal/blueprint/blueprint.go:145-150 | A plus sign and leading zeros change nothing, and nothing but digits behind at most one sign is read. |
| `Pins.ReferenceFindings` | internal/blueprint/findings.go:50-78 | The nested loops report every problem of every lane entry, Blueprints in order. |
| `Pins.FindingsAre` | internal/blueprint/findings.go:50-78 | A finding is reported exactly when its reference stands in that lane and has that problem. |
| `Pins.FindingsExactly` | internal/blueprint/findings.go:50-78 | A finding is reported once for every lane entry that finds nothing, pins past what it finds, or finds an extension where none belongs or something else where one does. |
| `Pins.PinDrift` | internal/drift/drift.go:199-249 | One finding per printed reference behind head, in order of first appearance, with its lanes. |
| `Pins.PinDriftExactly` | internal/drift/drift.go:199-249 | Over the authored lanes: one finding for each printed reference that lags its Component, in order of first appearance, with head and the lanes of exactly the entries so printed. |
| `Pins.PinPartition` | internal/drift/drift.go:211-229 | For a loaded Blueprint and the drift of one shared set, every resolved shared pin is ahead of head and a reference finding, or behind it and in exactly one drift finding listing its lanes in order, or at head and in neither. |
| `ClaimDrift.ClaimDriftLoop` | internal/drift/drift.go:255-317 | Findings are the claims behind a moved requirement that fail it now and passed it then; nudges those that pass it now. |
| `ClaimDrift.DriftedExactly` | internal/drift/drift.go:255-333 | A claim is nudged or drifted exactly as a config requirement moved past its stamp passes or fails now, and drifted only if no known text of that version failed too. |
| `ClaimDrift.HistoryOnlyAcquits` | internal/drift/drift.go:323-333 | History only clears a drifted claim, exactly one whose text at the stamped version failed too, and never touches a nudge. |

## Left out

- Commands, HTTP, file reading, YAML decoding, sessions and the browser console: input and output only.
- Detail lines, remediation paragraphs and report summaries: text; the tags the verdicts depend on are kept.
- `sort.Slice` is modelled by a stable sort: where it can meet equal elements the source's order among them is unspecified.
- Go map iteration order: loops over maps take any order and are proved to give one answer.
- Reversing the chain in place in `chain`: modelled on sequences, so aliasing of the slice is not captured.
- Pointers inside `activation.Record`: the record is a value here, so sharing between the caller's record and the new one is not captured.
- The memo's mutex: calls are taken one at a time.
- `%q` escapes quotes, backslashes and control characters; in quoting, characters above ASCII are taken to be printable and stand for themselves. Strings hold whole characters, never invalid bytes.
- Component configurations in claim derivation: a Component carries the literal insertions its configuration makes on each signal; reading them out of YAML and transform statements is not modelled.
- `renderer.Intended` is modelled by the lanes it keeps, since derivation reads only their names.
- Demoting a stale derived count: a population arrives with the count already demoted, as the evaluator's callers pass it.
- Reading the exemptions and Grace files: their loaded form is the input.
- Selectors.EvaluateClaim: candidates are ranked by the source's comparison on exact rationals, and the rendered binding text is not modelled.
- ClaimDrift.ClaimDriftLoop: the config checker is a parameter, and the intended reading is not computed lazily.
- SchemaMeaning.VerdictOverReadings: asks that an entry referring to an attribute the file does not define states no members, which the import does not enforce; where two such entries state different members, the first of the strictest level decides (`SchemaScope.FirstOfTheStrictest`).
- Floor drift and render checks: short comparisons over rendered artefacts.
- The four-way cross of configuration and signal assertions: a short table.
