# K-12 planner: a verified model of its hard services

This project models, in Dafny, the services of a school planning system that hold real algorithms,
and proves what they promise. `dafny verify dfyconfig.toml` checks everything.

What is modelled, hardest first:

- **Curriculum packs.** Profiles are JSON documents normalised from three shapes into one (`Registry`,
  `RegistryTheorems`); `RegistryValues` and `RegistryDefaults` say which value each section of the result holds. A
  tenant's releases are looked up through a cache keyed by a counter (`PackStore`); `PackStoreProtocol` is the same
  store as interleaved steps of readers, evictions and writers, `PackStoreRequests` says for which requests its
  keys suffice and `PackLookups` which release or pack a lookup finds. `Lifecycle` is the release state machine
  (import, publish, deprecate, freeze, roll back) and `LifecycleColumns` what each operation leaves in each column.
  `Resolver` is the precedence chain with its own cache and counter, `ResolverChain` says which settings and
  assignments reach it, and `ResolverRuns` runs it together with the lifecycle. `ResolverRequests` says for which
  stored references the caches are right, `ResolverProtocol` and `ResolverOrder` interleave readers with the two
  bumps of an operation in either order, and `ImportEffects` and `ResolverImports` say exactly when an import,
  which does not flush the resolver's cache, leaves it stale. `ResolverPins` holds the surroundings of the
  counterexamples.
- **OneRoster sync** (`OneRoster`, `OneRosterSync`, `OneRosterFailures`): upserts record by record, without a
  transaction, over a mapping table unique in both directions; `OneRosterRows` says what each record writes.
- **QTI 1.2** (`Qti`, `QtiImport`): a question bank written through an XML builder and read back by
  descendant queries; `QtiMarkup` spells the markup out and says what foreign markup becomes.
- **Standards forest** (`Standards`): recursion over a parent relation that may contain cycles.
- **Rate limiter** (`RateLimit`), **streamed responses** (`Stream`, `StreamEvents`), **search** (`Search`,
  `SearchFront`, `SearchKeys`), **gradebook CSV** (`Gradebook`, `GradebookCells`), **quizzes** (`Quizzes`,
  `QuizMarks`), **deployment windows** (`DeployWindow`).

`Wrappers` and `Text` hold shared result types and Ruby's reading of strings, `TextFacts` what the latter gives.

Objects that the code updates in place are classes here, with the code's loops; each method is proved
against a function of its inputs and old state, and the theorems are about those functions.
Ruby code that raises returns `Raised`, `None` or `ok == false`, and what was written before stays written.

## Parameters

What the model takes from outside is a parameter, the same on every call: the JSON schema and content
rejection rules, `to_s` of arrays and hashes, the order of a hash's pairs and ActiveSupport's `humanize` (`Registry.Host`); the
profiles shipped with the system and the built-in one (`PackStore.System`); e-mail validity, `downcase` and the
OneRoster defaults that depend on today (`OneRoster.Host`); the JSON parser of a stream; number formatting in the
gradebook; the clock.

## What the code does not do

Some promises hold only under a condition. The lemma named shows where each fails; the lemmas beside it in the
table prove when it holds:

- A v2 profile without planner objects changes on the second normalisation (`BareV2NotIdempotent`). Validated
  payloads are not affected (`ValidatedIsFixed`).
- Pack cache keys join key and version with a colon, so a request without a version and one for a version named
  `latest` share an entry (`LatestLabelCollides`); `AlwaysRightIff` says which sets of requests
  are safe. One course pinned to a profile and one to its version `latest` are therefore resolved alike;
  `AlwaysResolvedIff` says which stored references are safe.
- A rollback between two unpublished versions can leave two versions published (`UnguardedRollback`), and a
  rollback of the published version to itself leaves none, although the default names it
  (`RollbackNamesDefaultIff`).
- An import that is not quiet can leave the resolver serving an answer it kept (`LoudImportStales`);
  `ImportChangesNoResolutionIff` says which imports are quiet.
- Two writers that loaded the same counter bump it to the same value, and a stale pack is served
  (`OverlappingWritersLoseABump`).
- Publish, deprecate, freeze and rollback bump the resolver's counter before the pack store's, so a resolution made
  between the two bumps keeps an old answer under the new counter (`ResolverFirstGoesStale`);
  `NeverOvertakenIff` says for which operations. With the bumps the other way round that cannot happen
  (`PackFirstIsRight`).
- A failing OneRoster record can overwrite a row another entry is mapped to (`FailedRecordOverwrites`), and its own
  entry stays uncarried (`UsersCarriedIff`); `UserFailsIff` says which records fail, `UsersSucceed` when none does.
- A chunk that ends in a newline loses it, so two lines are read as one (`TwoLinesBecomeOne`).
- A submission whose marking raises leaves the attempt submitted for good (`FailedSubmissionSticks`).
- The reported wait is rounded, so it can end inside the block (`WaitIsEnoughIff`).
- A rate-limit period that grows between calls lets a call through although the longer window is full
  (`GrowingPeriodForgets`); `AlwaysAgreesIff` says for which limits and periods that can happen.
- A search cuts each type by id, so its list need not be the front of all hits in title order (`TitlesCutById`);
  `AlwaysFrontIff` says when it is.

## Model

| member | source | states |
|---|---|---|
| RegistryTheorems.IdempotentIff | apps/core/app/services/curriculum_profile_registry.rb:133-187 | normalising a normalised profile changes nothing iff the profile given was v1 or v3 shaped or brought planner objects |
| RegistryTheorems.FixedIffPlannerPresent | apps/core/app/services/curriculum_profile_registry.rb:156-187 | the same read off the first pass: its result is a fixed point iff it holds planner objects |
| RegistryTheorems.BareV2NotIdempotent | apps/core/app/services/curriculum_profile_registry.rb:172-187 | a concrete v2 profile on which the second pass differs from the first |
| RegistryTheorems.ValidatedIsFixed | apps/core/app/services/curriculum_profile_registry.rb:76-91 | whatever payload passes validation, the profile that comes out passes again and comes out unchanged |
| RegistryTheorems.SmallestValidates | apps/core/app/services/curriculum_profile_registry.rb:76-91 | for every key and version that are not blank, the smallest v3 profile naming them validates under a schema that accepts everything, and names them still |
| RegistryTheorems.LegacyKeysStable | apps/core/app/services/curriculum_profile_registry.rb:276-308 | the compatibility keys are the ten a v1 reader expects, and computing them again over a profile that already has them gives the same |
| RegistryTheorems.SettledIsFixed | apps/core/app/services/curriculum_profile_registry.rb:156-170 | a profile with every default in place is left alone by the v3 branch |
| RegistryTheorems.V3Settles | apps/core/app/services/curriculum_profile_registry.rb:156-170 | the v3 branch leaves no default open and drops no section |
| RegistryTheorems.V2Settles | apps/core/app/services/curriculum_profile_registry.rb:172-187 | the v2 branch yields a v3-shaped profile with no default open except the planner objects |
| RegistryTheorems.TypesInvertSchemas | apps/core/app/services/curriculum_profile_registry.rb:338-356 | the synthesised document types are the exact inverse index of the schemas: a type is listed iff some schema names it, with exactly those schemas, the least as default |
| RegistryTheorems.SynthesizedReferences | apps/core/app/services/curriculum_profile_registry.rb:310-356 | sections synthesised from a v2 profile refer to one another without a dangling reference, up to supplied bindings |
| RegistryTheorems.LiftedReferences | apps/core/app/services/curriculum_profile_registry.rb:172-274 | lifting a v1 profile gives no reference error at all (its values: RegistryValues); lifting a v2 profile gives exactly the errors for supplied workflow bindings outside the three legacy document types |
| Registry.Sorted | apps/core/app/services/curriculum_profile_registry.rb:338-356 | sorting the schema keys of a type keeps each once, in order |
| RegistryValues.CompatibilityKeys | apps/core/app/services/curriculum_profile_registry.rb:276-308 | of every normalised profile, the keys a v1 reader expects say what its own sections say: names, place, version, labels or their defaults, the options of the unit's subject and grade fields, and the framework and template defaults by their order of preference |
| RegistryValues.V1KeepsNames | apps/core/app/services/curriculum_profile_registry.rb:189-274 | a v1 profile comes out with its own key, label, version, description and jurisdiction |
| RegistryValues.V1KeepsLabels | apps/core/app/services/curriculum_profile_registry.rb:189-274 | its taxonomy labels, or the three defaults, are its labels and its terms; its status is its own, or active, if it is a lifecycle state |
| RegistryValues.V1KeepsOptions | apps/core/app/services/curriculum_profile_registry.rb:189-274 | its subject and grade options, as strings, are each under their own key and in their own field of the unit, which is spelled out field by field |
| RegistryValues.V1KeepsFrameworks | apps/core/app/services/curriculum_profile_registry.rb:458-472 | its framework defaults come out as strings, each once |
| RegistryValues.V1KeepsTemplates | apps/core/app/services/curriculum_profile_registry.rb:299-299 | its template defaults come out as they are |
| RegistryValues.FrameworksBound | apps/core/app/services/curriculum_profile_registry.rb:458-472 | framework bindings list the bindings' own defaults, else the profile's, else the coverage report's, as strings, each once; allow exactly those and what was allowed; and name the node kinds given, or standard |
| RegistryValues.V2Keeps | apps/core/app/services/curriculum_profile_registry.rb:172-187 | the v2 branch leaves every section it does not write alone, and keeps reports, hints, modules and navigation when they are set |
| RegistryValues.V2Versioning | apps/core/app/services/curriculum_profile_registry.rb:172-177 | a lifted profile is of schema 3.0, compatible as it says or v2 only, and keeps the rest of its versioning |
| RegistryDefaults.V2Made | apps/core/app/services/curriculum_profile_registry.rb:172-187 | a lifted profile has the three legacy schemas, the types they make, its own workflow bindings or default ones, and their definitions |
| RegistryDefaults.V3Defaults | apps/core/app/services/curriculum_profile_registry.rb:156-170 | a v3 profile keeps each section it brings and gets the default of each one it lacks, made from the sections it should be made from |
| RegistryDefaults.V3Versioning | apps/core/app/services/curriculum_profile_registry.rb:156-161 | its versioning says schema 3.0 and compatible with v3 unless it says otherwise |
| RegistryDefaults.PropertyOf | apps/core/app/services/curriculum_profile_registry.rb:543-564 | a form field becomes the property of its component: date, checkbox, select, multiselect or plain string, with its options where it has a choice |
| RegistryDefaults.SchemaProperties | apps/core/app/services/curriculum_profile_registry.rb:523-541 | a data schema has a property for exactly the visible ids, each made from the last field of that id |
| RegistryDefaults.SchemaRequired | apps/core/app/services/curriculum_profile_registry.rb:523-541 | it requires exactly the visible ids of required fields, in their order |
| RegistryDefaults.FormIds | apps/core/app/services/curriculum_profile_registry.rb:329-329 | the form shows exactly the ids that are set, in their order |
| RegistryDefaults.LegacySchemaRead | apps/core/app/services/curriculum_profile_registry.rb:318-334 | a legacy document schema names its type and closes over the properties and form of the fields of its planner object |
| RegistryDefaults.LegacySchemas | apps/core/app/services/curriculum_profile_registry.rb:310-336 | there is one for each of the three legacy types, under its key |
| RegistryDefaults.TypeEntry | apps/core/app/services/curriculum_profile_registry.rb:347-379 | a made-up type starts as a draft; only a unit plan can be pending and contains lesson plans |
| RegistryDefaults.DefaultBinding | apps/core/app/services/curriculum_profile_registry.rb:443-456 | every type is bound to its default workflow |
| RegistryDefaults.DefinitionsBound | apps/core/app/services/curriculum_profile_registry.rb:381-385 | exactly the bound workflows are defined |
| RegistryDefaults.WorkflowMoves | apps/core/app/services/curriculum_profile_registry.rb:387-441 | which event takes a document from which state to which, in each of the three workflows |
| RegistryDefaults.WorkflowEffects | apps/core/app/services/curriculum_profile_registry.rb:387-441 | their states, and what submitting and publishing do to approvals |
| RegistryDefaults.NavigationOpens | apps/core/app/services/curriculum_profile_registry.rb:844-853 | which roles open which workspace by default |
| RegistryDefaults.PlannerMade | apps/core/app/services/curriculum_profile_registry.rb:474-521 | planner objects made up are text fields under the profile's terms, with its types' statuses and its template and framework defaults |
| RegistryDefaults.StatusKept | apps/core/app/services/curriculum_profile_registry.rb:700-705 | the four lifecycle states are kept and anything else is a draft |
| RegistryDefaults.ValidatesIff | apps/core/app/services/curriculum_profile_registry.rb:566-634 | a payload validates iff it normalises to a profile with all fourteen sections, visible names, a lifecycle state, hashes where they belong, consistent references, and no schema or content error |
| PackStore.LatestEligible | apps/core/app/services/curriculum_pack_store.rb:65-91 | the latest eligible release of a profile is one of its published or frozen rows and no other such row is newer; none only when there is none |
| PackStore.Find | apps/core/app/services/curriculum_profile_lifecycle_service.rb:121-128 | a lookup by key and version gives the row so named, or there is none |
| PackStore.PackKeyCollisions | apps/core/app/services/curriculum_pack_store.rb:164-178 | two cache keys are equal iff tenant and counter agree and the requests differ at most in where the colon between key and version falls |
| PackStore.PlainKeysDistinct | apps/core/app/services/curriculum_pack_store.rb:164-178 | requests without a colon in the profile key and without the version called latest never share a cache entry |
| PackStore.LatestLabelCollides | apps/core/app/services/curriculum_pack_store.rb:19-45 | a cached answer for no version is served for the version named latest although the uncached answers differ |
| PackStore.FetchFresh | apps/core/app/services/curriculum_pack_store.rb:19-45 | a fetch keeps every entry under the current counter equal to the uncached lookup; its answer is the uncached one of a request with the same cache key, hence of the request itself when all requests are plain |
| PackStore.PackCache.FetchPack | apps/core/app/services/curriculum_pack_store.rb:19-45 | the caching method computes that fetch and keeps that freshness |
| PackStoreProtocol.StepKeepsInv | apps/core/app/services/curriculum_pack_store.rb:19-91 | each step of an interleaved reader, eviction or writer whose bump counts keeps the freshness invariant |
| PackStoreProtocol.RunKeepsInv | apps/core/app/services/curriculum_pack_store.rb:19-91 | so does every interleaving all of whose bumps count, that is, add one to the counter current at that moment |
| PackStoreProtocol.EntriesCurrentBetweenWrites | apps/core/app/services/curriculum_pack_store.rb:19-91 | in every such interleaving, however many writers overlap, whenever none is mid-operation each entry under the current counter, and each reader's hit, equals an uncached lookup |
| PackStoreProtocol.SerialRunsCount | apps/core/app/services/curriculum_pack_store.rb:55-61 | up-to-date writers that take turns only make bumps that count |
| PackStoreProtocol.FetchIsUncached | apps/core/app/services/curriculum_pack_store.rb:19-91 | after any such run a fetch by an up-to-date tenant gives exactly the uncached answer |
| PackStoreRequests.AlwaysRightIff | apps/core/app/services/curriculum_pack_store.rb:164-178 | a set of requests, plain or not, is answered as without a cache after every such run over every system and rows iff no two different ones in it share a pack key |
| PackStoreProtocol.OverlappingWritersLoseABump | apps/core/app/services/curriculum_pack_store.rb:55-61 | a run of the protocol's own steps in which two writers loaded the same counter: both bump to the same value, and with no writer under way the first one's answer is served for the second one's rows |
| PackLookups.NamedLookup | apps/core/app/services/curriculum_pack_store.rb:65-91 | naming a version finds the tenant's release of it when that is published or frozen, nothing when it is in another state, and a system pack only when there is none |
| PackLookups.UnnamedLookup | apps/core/app/services/curriculum_pack_store.rb:65-91 | naming none finds the published or frozen release changed last, by id among several, and a system pack only when there is none |
| PackLookups.VersionedPack | apps/core/app/services/curriculum_profile_registry.rb:38-50 | the system pack of a key and version is the first in load order of both |
| PackLookups.UnversionedPack | apps/core/app/services/curriculum_profile_registry.rb:38-50 | that of a key alone is the first active one, else the top one by version, label and activity, the first among equals |
| PackLookups.MatchingListed | apps/core/app/services/curriculum_profile_registry.rb:38-42 | the packs of a key are those naming it in either place, in load order |
| PackLookups.LastResort | apps/core/app/services/curriculum_profile_registry.rb:72-74 | the profile of last resort is the default pack, else the top one of all, else the built-in one |
| PackLookups.CachedLookup | apps/core/app/services/curriculum_pack_store.rb:19-45 | a blank key finds nothing and leaves the cache alone; any other is answered by the entry under its spelled-out key, or else by the rows, and that answer is entered |
| Lifecycle.LifecycleService.ImportPack | apps/core/app/services/curriculum_profile_lifecycle_service.rb:15-42 | import upserts the validated profile and bumps only the pack-store counter; an invalid payload changes nothing |
| Lifecycle.LifecycleService.PublishPack | apps/core/app/services/curriculum_profile_lifecycle_service.rb:44-65 | the loop deprecates every other published version, publishes the named one, sets the default and bumps both counters (columns: PublishColumns) |
| Lifecycle.LifecycleService.DeprecatePack | apps/core/app/services/curriculum_profile_lifecycle_service.rb:67-78 | deprecating updates that row and bumps both counters; an unknown release changes nothing |
| Lifecycle.LifecycleService.FreezePack | apps/core/app/services/curriculum_profile_lifecycle_service.rb:80-91 | freezing updates that row and bumps both counters; an unknown release changes nothing |
| Lifecycle.LifecycleService.RollBackPack | apps/core/app/services/curriculum_profile_lifecycle_service.rb:93-119 | rolling back updates both rows from the copies loaded first, sets the default and bumps both counters |
| Lifecycle.ImportedRow | apps/core/app/services/curriculum_profile_lifecycle_service.rb:15-42 | an import appends a draft or replaces one row in place, keeping its id and status, and holds the validated payload under the key and version it names |
| Lifecycle.ApplyKeepsNumbered | apps/core/app/services/curriculum_profile_lifecycle_service.rb:15-119 | no operation breaks the unique index or reuses a row id, whatever the payloads in the rows |
| Lifecycle.RunKeepsImported | apps/core/app/services/curriculum_profile_lifecycle_service.rb:15-119 | over every run the unique index holds and each row holds the payload import validated, under the names in that payload |
| Lifecycle.RollbackKeepsOneIff | apps/core/app/services/curriculum_profile_lifecycle_service.rb:93-119 | a rollback leaves at most one published version per profile iff no third version of the profile was published before |
| Lifecycle.RunKeepsOnePublished | apps/core/app/services/curriculum_profile_lifecycle_service.rb:44-119 | over every run, from any table with its unique index, whose rollbacks meet that guard at most one version per profile is published |
| Lifecycle.FromPublishedMeetsGuard | apps/core/app/services/curriculum_profile_lifecycle_service.rb:93-119 | a rollback from the published version meets the guard |
| Lifecycle.UnguardedRollback | apps/core/app/services/curriculum_profile_lifecycle_service.rb:93-119 | three releases and a rollback between two drafts that leave two versions published |
| Lifecycle.PublishNamesDefault | apps/core/app/services/curriculum_profile_lifecycle_service.rb:44-65 | right after a publish the tenant default names that release and it alone of its profile is published |
| Lifecycle.RollbackNamesDefaultIff | apps/core/app/services/curriculum_profile_lifecycle_service.rb:93-119 | right after a rollback the default names the target, which is published iff the rollback was not of the published version to itself |
| Lifecycle.DeprecateWithdraws | apps/core/app/services/curriculum_profile_lifecycle_service.rb:67-78 | a deprecated version is found no more by name, not even as a system pack; asking for no version finds what it would if the release were not there; every other lookup is unchanged |
| Lifecycle.FreezeServes | apps/core/app/services/curriculum_profile_lifecycle_service.rb:80-91 | a frozen version is found by name as imported whatever its status was; without a version it is found too when freezing changes its row and the clock is ahead, and what was found before when freezing changes nothing; every lookup for another version or profile is unchanged |
| Lifecycle.OperationIsOneWrite | apps/core/app/services/curriculum_profile_lifecycle_service.rb:15-119 | each operation that does not raise, by an up-to-date writer, is one writer of the interleaving protocol: its rows, then one bump that counts |
| LifecycleColumns.PublishColumns | apps/core/app/services/curriculum_profile_lifecycle_service.rb:44-65 | a publish raises iff the release is missing; it publishes the named row with date and metadata, deprecates the other published rows of the profile with their date, and leaves every other row and column alone |
| LifecycleColumns.PublishWithdraws | apps/core/app/services/curriculum_profile_lifecycle_service.rb:47-49 | a version a publish replaces is found no more by name |
| LifecycleColumns.DeprecateColumns | apps/core/app/services/curriculum_profile_lifecycle_service.rb:67-78 | deprecating raises iff the release is missing, and writes status, date and metadata of that row alone |
| LifecycleColumns.FreezeColumns | apps/core/app/services/curriculum_profile_lifecycle_service.rb:80-91 | so does freezing |
| LifecycleColumns.RollbackColumns | apps/core/app/services/curriculum_profile_lifecycle_service.rb:93-119 | a rollback raises iff either release is missing, and writes the stated columns of the two rows alone, of one rolled back to itself only what its stale copy lets through |
| LifecycleColumns.ImportColumns | apps/core/app/services/curriculum_profile_lifecycle_service.rb:15-42 | an import raises iff the payload does not validate; it writes importer, checksum, payload and metadata of the row of that name, or appends a draft with them |
| Resolver.ResolverService.BuildCandidates | apps/core/app/services/curriculum_profile_resolver.rb:114-222 | the chain appended level by level goes from the strongest level to the weakest and ends in the system fallback (which assignments enter it: AssignmentsInChain) |
| Resolver.ResolverService.ChooseCandidate | apps/core/app/services/curriculum_profile_resolver.rb:234-260 | the loop computes the chosen candidate, the first fallback reason and the cache it leaves |
| Resolver.ResolverService.ResolveProfile | apps/core/app/services/curriculum_profile_resolver.rb:6-112 | resolution through both caches computes the specified answer and caches (its content: ResolutionShows) |
| Resolver.FirstPassing | apps/core/app/services/curriculum_profile_resolver.rb:234-260 | the first candidate with a key that resolves and is acceptable; every earlier one fails |
| Resolver.ChainOrdered | apps/core/app/services/curriculum_profile_resolver.rb:114-175 | the chain goes from course settings down to the system fallback, level by level, and always ends in it |
| Resolver.CourseSettingWins | apps/core/app/services/curriculum_profile_resolver.rb:114-175 | a profile pinned in the course settings wins over everything else whenever it resolves and is acceptable, with no fallback reason |
| Resolver.ChooseIsFirstPassing | apps/core/app/services/curriculum_profile_resolver.rb:234-293 | over a cache trusted for a set of requests with different pack keys, which holds those of the candidates, the loop selects exactly the first passing candidate, and its reason is that of the first skipped one; with the pack store off nothing is asked of the candidates |
| Resolver.ResolutionRespectsPrecedence | apps/core/app/services/curriculum_profile_resolver.rb:33-112 | some profile is always returned; it comes from the first passing candidate, every earlier one fails, and a reason is absent iff no candidate with a key was skipped |
| Resolver.ResolveThroughIsUncached | apps/core/app/services/curriculum_profile_resolver.rb:33-112 | resolution through such a cache equals resolution without one and leaves the cache trusted |
| Resolver.ResolverKeysDistinct | apps/core/app/services/curriculum_profile_resolver.rb:295-307 | equal resolver keys mean equal tenant, school, course, effective year and counter |
| Resolver.SameResolution | apps/core/app/services/curriculum_profile_resolver.rb:295-307 | those four determine the resolution, so the key leaves nothing out |
| ResolverRuns.RunKeepsInv | apps/core/app/services/curriculum_profile_resolver.rb:6-31 | over every run of resolutions, evictions, atomic lifecycle operations and outside changes whose sites ask, with the pack store on, only for requests of a set with different pack keys, both caches stay trustworthy |
| ResolverRuns.ResolveIsUncachedAfterFlush | apps/core/app/services/curriculum_profile_resolver.rb:6-56 | after every such run whose latest change is a publish, deprecate, freeze or rollback, or a quiet import since, the cached resolution equals the uncached one |
| ResolverRequests.AlwaysResolvedIff | apps/core/app/services/curriculum_profile_resolver.rb:6-56 | for any set of references, the cached resolution equals the uncached one after every flushed run over sites with no other references iff no two different requests made for them and the fallback share a pack key |
| ResolverRequests.HeldIsAsked | apps/core/app/services/curriculum_profile_resolver.rb:114-222 | a site whose settings, courses, schools, assignments and defaults hold references of the set only asks for their requests only |
| ResolverRequests.PlainAreUnambiguous | apps/core/app/services/curriculum_pack_store.rb:164-178 | references without a colon in the key and without the version called latest are such a set |
| ResolverProtocol.StepKeepsInv | apps/core/app/services/curriculum_profile_resolver.rb:6-31 | with the pack-store counter bumped first, each step of an interleaved reader, eviction or operation, at a site asking for requests with different pack keys, keeps pack entries right outside writes and kept resolutions right between operations |
| ResolverProtocol.PackFirstIsRight | apps/core/app/services/curriculum_profile_resolver.rb:6-31 | in every interleaving over such sites of readers, evictions and operations that bump the pack-store counter first, between operations every kept resolution under the current counter, and every answer, is the uncached one |
| ResolverProtocol.AlwaysServedIff | apps/core/app/services/curriculum_profile_resolver.rb:6-31 | for any set of references, that holds of all interleavings over sites with no other references iff no two different requests made for them and the fallback share a pack key |
| ResolverOrder.ResolverFirstGoesStale | apps/core/app/services/curriculum_profile_lifecycle_service.rb:57-64 | in the order of the code every publish, deprecate, freeze or rollback that changes a request's answer, from none, to none or to another, has a run in which a reader between the two bumps keeps the resolution under the new counter, and it is served, wrongly, after the operation |
| ResolverOrder.QuietWritesAreRight | apps/core/app/services/curriculum_profile_lifecycle_service.rb:57-64 | in the same order, over every interleaving whose writes change no answer, every answer between operations is the uncached one |
| ResolverOrder.NeverOvertakenIff | apps/core/app/services/curriculum_profile_lifecycle_service.rb:44-119 | hence a publish, deprecate, freeze or rollback never leaves a stale resolution iff it changes no answer that resolution reads |
| ResolverRuns.PublishedIsResolved | apps/core/app/services/curriculum_profile_resolver.rb:114-175 | with the pack store on and only defaults to go by, resolving after a publish of an imported release gives exactly that release |
| ResolverRuns.PublishThenResolve | apps/core/app/services/curriculum_profile_lifecycle_service.rb:57-64 | the same through both caches right after the publish, after any run from imported rows and empty caches, whatever the release and the references along the run are called |
| ResolverRuns.RunKeepsImported | apps/core/app/services/curriculum_profile_lifecycle_service.rb:15-119 | over every run of the deployment each row holds what import validated |
| ImportEffects.QuietImportIff | apps/core/app/services/curriculum_profile_lifecycle_service.rb:15-42 | an import changes no uncached lookup iff it is quiet: of a new version no system pack has, or over a version that is not eligible, or over an eligible one that holds the import already, or holds its payload and whose re-saving now keeps the latest release what it is |
| ImportEffects.KeepsLatestIff | apps/core/app/services/curriculum_pack_store.rb:65-91 | that last guard, read off the rows before the import, is exact: re-saving a row keeps the latest eligible release iff the row is the latest and stays later than the others, or another stays later than it |
| ResolverRuns.QuietImportResolves | apps/core/app/services/curriculum_profile_lifecycle_service.rb:15-42 | a quiet import changes no resolution, with the pack store on or off |
| ResolverImports.ImportChangesNoResolutionIff | apps/core/app/services/curriculum_profile_lifecycle_service.rb:40-40 | an import changes no resolution in any surroundings iff it is quiet |
| ResolverImports.LoudImportStales | apps/core/app/services/curriculum_profile_lifecycle_service.rb:40-40 | after any other import some deployment goes on serving the answer it kept, which is no longer the uncached one |
| ResolverChain.AssignmentsInChain | apps/core/app/services/curriculum_profile_resolver.rb:177-222 | the assignments in the chain: none unless pinning or the tenant's flag is on; then at each of the four levels the first two stored rows, in order, that are active, of the scope and about the course, the school, the frozen year or nothing in particular, and for no year or the effective one |
| ResolverChain.SettingsReached | apps/core/app/services/curriculum_profile_resolver.rb:114-175 | the other levels hold exactly the course's, school's, tenant's and district's own profile when set, and the default profile last |
| ResolverChain.CandidateResolves | apps/core/app/services/curriculum_profile_resolver.rb:262-282 | what a candidate resolves to, with the pack store on and off |
| ResolverChain.AcceptableIff | apps/core/app/services/curriculum_profile_resolver.rb:284-293 | with the store off and the lifecycle on, a pack is acceptable unless the tenant has a release of its version that is neither published nor frozen |
| ResolverChain.ReasonOfFirst | apps/core/app/services/curriculum_profile_resolver.rb:234-260 | the reason recorded is that of the first candidate with a key that was skipped: missing version, missing key or release state |
| ResolverChain.ResolutionShows | apps/core/app/services/curriculum_profile_resolver.rb:33-112 | a resolution shows profile, source and release of the first passing candidate, else of the default pack, else the profile of last resort, with the reason |
| Qti.Exporter.BuildChoiceInteraction | apps/core/app/jobs/qti_export_job.rb:72-84 | the builder writes one labelled option per choice and leaves its nesting as it was |
| Qti.Exporter.BuildTrueFalseInteraction | apps/core/app/jobs/qti_export_job.rb:86-97 | the builder writes the two fixed options |
| Qti.Exporter.BuildResprocessing | apps/core/app/jobs/qti_export_job.rb:99-123 | the builder writes the correct responses of a question with an answer and nothing otherwise |
| Qti.Exporter.BuildItem | apps/core/app/jobs/qti_export_job.rb:34-70 | the builder writes one whole item |
| Qti.Exporter.BuildQti | apps/core/app/jobs/qti_export_job.rb:19-32 | the builder yields the tree of the active questions in order |
| Qti.ReadShownDecimal | apps/core/app/jobs/qti_import_job.rb:72-74 | points printed as a decimal are read back as the same number |
| QtiImport.ImportTree | apps/core/app/jobs/qti_import_job.rb:16-27 | the import visits every item below the root once, in order, isolating errors |
| QtiImport.ItemQueried | apps/core/app/jobs/qti_import_job.rb:31-96 | on an exported item each descendant query of the import finds exactly the nodes the export wrote for it |
| QtiImport.ResponsesRead | apps/core/app/jobs/qti_import_job.rb:81-91 | the response query gives back the correct responses |
| QtiImport.ItemRoundTrip | apps/core/app/jobs/qti_export_job.rb:34-70 | every question of every type comes back with its type, prompt and points |
| QtiImport.AnswerRoundTripIff | apps/core/app/jobs/qti_export_job.rb:72-123 | for multiple choice, true/false and short answer the answer, and the options of a multiple choice, come back iff they are well formed |
| QtiImport.QuestionSurvives | apps/core/app/jobs/qti_import_job.rb:31-96 | both together for any valid question |
| QtiImport.BankRoundTrip | apps/core/app/jobs/qti_import_job.rb:16-27 | importing an exported bank gives its active questions in order, each surviving, and no errors |
| QtiMarkup.ItemMarkup | apps/core/app/jobs/qti_export_job.rb:34-123 | the item of any question, element by element and attribute by attribute |
| QtiMarkup.BankMarkup | apps/core/app/jobs/qti_export_job.rb:19-32 | a bank is one section of the items of its active questions |
| QtiMarkup.ActiveKept | apps/core/app/jobs/qti_export_job.rb:24-24 | exactly the active questions, in order |
| QtiMarkup.TypeDetected | apps/core/app/jobs/qti_import_job.rb:55-70 | the type of any item: the one declared when known, else by its interaction, a choice between just true and false being a true/false question |
| QtiMarkup.ItemOutcome | apps/core/app/jobs/qti_import_job.rb:31-96 | any item is listed as unrecognised, listed as invalid for want of prompt or points, or becomes the question its markup says |
| QtiMarkup.WholePoints | apps/core/app/jobs/qti_import_job.rb:73-74 | points written without a fraction, or with one of zeros only, are whole |
| OneRoster.FindExternal | apps/core/app/models/sync_mapping.rb:33-35 | an external id's row, or there is none |
| OneRoster.UpsertKeepsInjective | apps/core/app/jobs/one_roster_user_sync_job.rb:241-256 | a mapping upsert that validates keeps the table injective in both directions, maps the entry, and leaves every other external id where it was |
| OneRoster.UpsertAgain | apps/core/app/jobs/one_roster_user_sync_job.rb:241-256 | mapping an entry to the row it already has changes nothing |
| OneRoster.DistinctLocals | apps/core/app/models/sync_mapping.rb:23-24 | two external ids of a kind never share a local row |
| OneRoster.SyncKeepsWf | apps/core/app/jobs/one_roster_org_sync_job.rb:163-187 | over any sequence of org and user syncs, failed records included, the table stays injective, and processed grows by one per record and equals succeeded plus failed |
| OneRosterSync.SyncJob.UpsertMapping | apps/core/app/jobs/one_roster_user_sync_job.rb:241-256 | the method computes the upsert; a validation failure leaves what was saved before |
| OneRosterSync.SyncJob.UpsertUser | apps/core/app/jobs/one_roster_user_sync_job.rb:58-84 | one user record: found by mapping or e-mail or created, attributes and role written, then mapped (values: UserWritten) |
| OneRosterSync.SyncJob.UpsertEnrollment | apps/core/app/jobs/one_roster_user_sync_job.rb:128-153 | one enrolment record |
| OneRosterSync.SyncJob.UpsertOrg | apps/core/app/jobs/one_roster_org_sync_job.rb:47-65 | one school record |
| OneRosterSync.SyncJob.ProcessRecord | apps/core/app/jobs/one_roster_user_sync_job.rb:232-239 | the counters grow whether or not the record's block raised, and its partial writes stay |
| OneRosterSync.SyncJob.SyncRecords | apps/core/app/jobs/one_roster_user_sync_job.rb:54-86 | a phase processes every record in order |
| OneRosterSync.SyncJob.Perform | apps/core/app/jobs/one_roster_user_sync_job.rb:15-41 | a run processes the phases up to the first fetch that raises and ends completed iff none did |
| OneRosterSync.UsersConverge | apps/core/app/jobs/one_roster_user_sync_job.rb:54-86 | after a user sync over distinct ids without failures every entry is mapped to a user carrying its attributes and the role teacher, student or, for an administrator, admin |
| OneRosterSync.UserSyncIdempotent | apps/core/app/jobs/one_roster_user_sync_job.rb:54-86 | running the same feed again changes nothing and fails nowhere |
| OneRosterSync.FailedRecordOverwrites | apps/core/app/jobs/one_roster_user_sync_job.rb:54-86 | with a failure it is false: two entries with one e-mail, the second refused after renaming the first one's user |
| OneRosterSync.OrgStep | apps/core/app/jobs/one_roster_org_sync_job.rb:47-65 | a successful school record is mapped to a school carrying it, touches no other school, and the same record again changes nothing |
| OneRosterSync.YearStep | apps/core/app/jobs/one_roster_org_sync_job.rb:88-114 | a school year record likewise, with dates at least a day apart |
| OneRosterSync.TermStep | apps/core/app/jobs/one_roster_org_sync_job.rb:116-161 | a term record is mapped to a term carrying it, in an existing year, which is its parent's when that is known |
| OneRosterSync.ClassStep | apps/core/app/jobs/one_roster_user_sync_job.rb:88-122 | a class record is mapped to a section whose course lies in the year of its term and carries the class's school when that is known |
| OneRosterSync.EnrollmentsConverge | apps/core/app/jobs/one_roster_user_sync_job.rb:124-155 | after an enrolment sync without failures every entry is mapped to an enrolment carrying it |
| OneRosterSync.EnrollmentSyncIdempotent | apps/core/app/jobs/one_roster_user_sync_job.rb:124-155 | running the same enrolment feed again changes nothing |
| OneRosterFailures.SyncKeepsNative | apps/core/app/jobs/one_roster_user_sync_job.rb:241-256 | over any sequence of syncs every mapping joins kinds that go together and names a row id already given out |
| OneRosterFailures.UserFailsIff | apps/core/app/jobs/one_roster_user_sync_job.rb:58-84 | a user record fails iff its e-mail is blank or ill-formed, its id blank, its e-mail another user's, or its user another entry's |
| OneRosterFailures.UserCarriedIff | apps/core/app/jobs/one_roster_user_sync_job.rb:58-84 | a user record carries its entry iff it succeeds |
| OneRosterFailures.UsersCarriedIff | apps/core/app/jobs/one_roster_user_sync_job.rb:54-86 | over distinct ids every user entry ends up carried iff no record failed |
| OneRosterFailures.UsersSucceed | apps/core/app/jobs/one_roster_user_sync_job.rb:54-86 | over distinct ids and e-mails no user record fails when none would be refused on the tables before the run |
| OneRosterFailures.EnrollmentFailsIff | apps/core/app/jobs/one_roster_user_sync_job.rb:128-153 | an enrolment record fails iff its role is unsupported, its user or class not mapped to a row, its id blank, or its enrolment another entry's |
| OneRosterFailures.EnrollmentCarriedIff | apps/core/app/jobs/one_roster_user_sync_job.rb:128-153 | an enrolment record carries its entry iff it succeeds |
| OneRosterFailures.EnrollmentsCarriedIff | apps/core/app/jobs/one_roster_user_sync_job.rb:124-155 | over distinct ids every enrolment entry ends up carried iff no record failed |
| OneRosterFailures.EnrollmentsSucceed | apps/core/app/jobs/one_roster_user_sync_job.rb:124-155 | over distinct ids and distinct pairs of user and class no enrolment record fails when none would be refused on the tables before the run |
| OneRosterRows.UserWritten | apps/core/app/jobs/one_roster_user_sync_job.rb:54-86 | a user record saves the mapped user, else the first with its e-mail, else a new one: e-mail, names given, kept or default, and one more role for a teacher, student or administrator, who becomes an admin; then it maps it |
| OneRosterRows.UserRefused | apps/core/app/jobs/one_roster_user_sync_job.rb:54-86 | without an e-mail, with an ill-formed one or with another user's it writes nothing |
| OneRosterRows.EnrollmentWritten | apps/core/app/jobs/one_roster_user_sync_job.rb:124-155 | an enrolment record is refused unless its role is teacher or student and both ends are mapped to rows; else it gives the one enrolment of that user in that class that role |
| OneRosterRows.SchoolWritten | apps/core/app/jobs/one_roster_org_sync_job.rb:42-67 | a school record writes name and time zone, or their defaults, of the mapped or a new school |
| OneRosterRows.YearWritten | apps/core/app/jobs/one_roster_org_sync_job.rb:88-114 | a year record writes its name and dates, the end after the start |
| OneRosterRows.TermWritten | apps/core/app/jobs/one_roster_org_sync_job.rb:116-161 | a term record likewise, in its parent's year, else the last one, else a new one |
| OneRosterRows.OtherSessionSkipped | apps/core/app/jobs/one_roster_org_sync_job.rb:69-86 | other sessions are skipped |
| OneRosterRows.ClassWritten | apps/core/app/jobs/one_roster_user_sync_job.rb:88-122 | a class record lands in its own term, else the last, else a new one; in the first course of its name in that term's year or a new one, given the class's school when mapped; and writes the mapped or a new section |
| OneRosterRows.UpsertRefusedIff | apps/core/app/models/sync_mapping.rb:20-24 | a mapping is refused iff its external id is blank or its row another entry's; otherwise it is in and all others stay |
| OneRosterRows.RecordCounted | apps/core/app/jobs/one_roster_user_sync_job.rb:232-239 | each record is counted once as processed and once as succeeded or failed |
| Standards.TreeTerminates | apps/core/app/models/standard.rb:43-46 | the recursion ends on every finite set with unique ids, cycles or not |
| Standards.SubtreeTerminatesIff | apps/core/app/models/standard.rb:82-97 | the recursion from a root ends iff the root is not on a cycle; on one, no stack is deep enough |
| Standards.DepthIrrelevant | apps/core/app/models/standard.rb:67-80 | a deeper stack builds the same nodes |
| Standards.NodesExact | apps/core/app/models/standard.rb:67-80 | a finished build holds each id below its top exactly once and no other |
| Standards.BuildMirrors | apps/core/app/models/standard.rb:67-80 | at every node the children are those standards whose parent it is, in order, with their columns |
| Standards.TreeExact | apps/core/app/models/standard.rb:43-46 | the tree holds each standard whose parent chain reaches nil exactly once and no other |
| Standards.SubtreeExact | apps/core/app/models/standard.rb:82-97 | a subtree off every cycle holds exactly the root's descendants, once each |
| RateLimit.SlidingWindowRateLimiter.Allow | apps/ai-gateway/app/rate_limit.py:11-25 | the bucket code answers as specified for any clock, limit and period, and while time runs forwards for the key allows iff fewer than the limit were allowed in the window ending now |
| RateLimit.SlidingWindowRateLimiter.Reset | apps/ai-gateway/app/rate_limit.py:27-29 | all buckets are forgotten |
| RateLimit.StepRefines | apps/ai-gateway/app/rate_limit.py:11-25 | one call decides by the bucket exactly as counting the whole history of allowed calls would |
| RateLimit.OutcomeIff | apps/ai-gateway/app/rate_limit.py:14-25 | on a bucket in order, a call is allowed iff the window holds fewer calls than the limit, raises iff it is empty and the limit not above zero, and is rejected otherwise |
| RateLimit.RetryBounds | apps/ai-gateway/app/rate_limit.py:20-22 | a rejected call is told between one second and the period, and less than a second short of when the oldest entry expires |
| RateLimit.StepKeepsLimit | apps/ai-gateway/app/rate_limit.py:11-25 | one call keeps every window within the limit |
| RateLimit.NoWindowExceeds | apps/ai-gateway/app/rate_limit.py:11-25 | with a clock that never runs backwards no window of one period, wherever it ends, contains more than the limit |
| RateLimit.GrowingPeriodForgets | apps/ai-gateway/app/rate_limit.py:13-18 | for every limit from two on and every growing period a run from the start in which a call is let through although the longer window is overfull |
| RateLimit.NeverGrowingAgrees | apps/ai-gateway/app/rate_limit.py:11-25 | runs whose periods never grow are decided call by call as counting all allowed calls would, whatever the limits |
| RateLimit.LimitOneAgrees | apps/ai-gateway/app/rate_limit.py:11-25 | so are runs under a fixed limit of at most one, whatever the periods |
| RateLimit.AlwaysAgreesIff | apps/ai-gateway/app/rate_limit.py:11-25 | every run under a limit and some periods is decided so iff the limit is at most one or the period never changes |
| Stream.StreamReader.ParseStreamLine | apps/core/app/services/ai_gateway_client.rb:130-146 | one line delivers at most one token and appends it to the text |
| Stream.StreamReader.OnData | apps/core/app/services/ai_gateway_client.rb:104-112 | a chunk's complete lines are parsed in order and the unfinished one kept |
| Stream.StreamReader.Finish | apps/core/app/services/ai_gateway_client.rb:115-115 | at the end the deliveries are those of the reassembled lines and the text their concatenation |
| Stream.ReassembledCount | apps/core/app/services/ai_gateway_client.rb:104-115 | each boundary that loses a newline costs exactly one line |
| Stream.ReassembledExactIff | apps/core/app/services/ai_gateway_client.rb:104-115 | the reassembled lines are the body's non-empty lines iff no chunk boundary falls just after a newline that ends a line while the next chunk starts with other text |
| Stream.NoBoundaryAfterNewline | apps/core/app/services/ai_gateway_client.rb:104-115 | in particular when no inner boundary falls just after a newline |
| Stream.LinesRunTogether | apps/core/app/services/ai_gateway_client.rb:106-107 | what is lost: a line that ends with its chunk is read together with the next |
| Stream.TwoLinesBecomeOne | apps/core/app/services/ai_gateway_client.rb:106-107 | the simplest two chunks that show it |
| Stream.StreamingIsParsing | apps/core/app/services/ai_gateway_client.rb:88-146 | for every chunking that loses no newline, tokens and text are those of parsing the whole body line by line |
| StreamEvents.TokenOf | apps/core/app/services/ai_gateway_client.rb:146-154 | an event's token is its first set field, a finished event's content not counting |
| StreamEvents.LineDelivers | apps/core/app/services/ai_gateway_client.rb:130-144 | a line delivers one event, with its token unless blank, iff stripped it is a data line holding JSON other than the end mark |
| StreamEvents.TextGathered | apps/core/app/services/ai_gateway_client.rb:140-140 | the text is the delivered tokens one after the other |
| Search.NormalizeLimit | apps/core/app/services/search_service.rb:198-203 | the limit used is the one given when that lies between 1 and 50, ten when it is not positive and fifty above |
| Search.RoundingKeepsOrder | apps/core/app/services/search_service.rb:161-164 | rounding to six decimals keeps the order of ranks |
| Search.MergeCount | apps/core/app/services/search_service.rb:73-75 | cutting each type first loses no hit, counted at any rank, that a cut of the whole would keep |
| Search.TopRanks | apps/core/app/services/search_service.rb:61-77 | the ranks returned are exactly the highest ones over all matches of all types, as many as the limit |
| Search.NoneOutranks | apps/core/app/services/search_service.rb:61-77 | the result is sorted by its key, as long as it can be, repeats no match, and nothing left out outranks anything in it |
| Search.OnlyTiesDiffer | apps/core/app/services/search_service.rb:75-76 | however equal keys are ordered, two results agree on rank, title and id at every position |
| Search.SearchReturns | apps/core/app/services/search_service.rb:61-77 | the search defined here is one the unstable sort may return |
| SearchFront.TitlesCutById | apps/core/app/services/search_service.rb:107-112 | a type is cut by id, so the list itself need not be the front of all hits in title order: two rows that show it |
| SearchFront.FrontOfAllHits | apps/core/app/services/search_service.rb:61-77 | when no type's cut is at a tie of rounded ranks that the result reaches, the result is, key by key, the front of all hits in its own order |
| SearchFront.AlwaysFrontIff | apps/core/app/services/search_service.rb:61-112 | and it is so whatever the titles iff no type's cut is at such a tie |
| SearchKeys.TypeHits | apps/core/app/services/search_service.rb:103-125 | a type's hits are its best rows by rank, then id, cut to the limit and shown under the type |
| SearchKeys.HitsOrdered | apps/core/app/services/search_service.rb:75-75 | hits are sorted by rank downwards, then lowered title with a missing one first, then id |
| SearchKeys.NearestMillionth | apps/core/app/services/search_service.rb:161-164 | ranks are rounded to the nearest millionth, halves away from zero |
| SearchKeys.MergedInOrder | apps/core/app/services/search_service.rb:73-76 | the types are merged in the order searched, and a limit below one is ten |
| Gradebook.Call | apps/core/app/services/gradebook_export_service.rb:7-14 | the printed text is the table of headers, one row per student and the summary, and reads back as that table |
| Gradebook.ReadField | apps/core/app/services/gradebook_export_service.rb:91-98 | a printed field, whatever commas, quotes and newlines it holds, is read back whole |
| Gradebook.ReadPrinted | apps/core/app/services/gradebook_export_service.rb:13-13 | every table's text is well formed and reads back as the table with empty rows padded |
| Gradebook.RoundTripIff | apps/core/app/services/gradebook_export_service.rb:13-13 | reading undoes printing iff the table has a row and no row is empty |
| Gradebook.PrintedAlikeIff | apps/core/app/services/gradebook_export_service.rb:13-13 | two tables print alike iff they agree up to that padding, so the printer is injective on non-empty rows |
| Gradebook.SameWidthIff | apps/core/app/services/gradebook_export_service.rb:20-73 | all rows are equally wide iff each student has one grade per assignment |
| Gradebook.ColumnsAlign | apps/core/app/services/gradebook_export_service.rb:20-73 | read back, the column of an assignment holds its title, each student's cell for it and its average |
| GradebookCells.CellShown | apps/core/app/services/gradebook_export_service.rb:48-59 | a missing cell says so, a grade is marked when late, no grade is a dash |
| GradebookCells.PercentageShown | apps/core/app/services/gradebook_export_service.rb:75-85 | percentages and mastery as text |
| GradebookCells.RowsShown | apps/core/app/services/gradebook_export_service.rb:7-73 | header, one row per student and summary, cell by cell |
| Quizzes.Quiz.CalculatePoints | apps/core/app/models/quiz.rb:37-39 | the stored total becomes the sum of the items' points |
| Quizzes.Quiz.CreateItem | apps/core/app/models/quiz_item.rb:7-17 | a new item is saved iff its points are positive and its question new, and the total follows |
| Quizzes.Quiz.UpdateItem | apps/core/app/models/quiz_item.rb:7-17 | a changed item likewise; a refused change leaves items and total |
| Quizzes.Quiz.DestroyItem | apps/core/app/models/quiz_item.rb:11-17 | removing an item recomputes the total |
| Quizzes.RunKeepsTotal | apps/core/app/models/quiz_item.rb:7-17 | over every run of edits, refused ones included, the stored total is the sum of positive points over distinct questions |
| Quizzes.PairsUnordered | apps/core/app/models/attempt_answer.rb:44-46 | marking a matching answer depends neither on the order nor on the repetition of its pairs |
| Quizzes.ShortAnswerCorrectIff | apps/core/app/models/attempt_answer.rb:32-34 | a short answer is correct iff, trimmed, it is an acceptable one up to case; the acceptable ones are not trimmed |
| Quizzes.FillInBlankCorrectIff | apps/core/app/models/attempt_answer.rb:37-38 | blanks are correct iff each is, up to case, in order and none is missing or left over |
| Quizzes.EmptyAnswerCorrectIff | apps/core/app/models/attempt_answer.rb:27-31 | any choice answer that names nothing is marked correct iff the question's own answer names nothing |
| Quizzes.QuizAttempt.CalculateScore | apps/core/app/models/quiz_attempt.rb:37-44 | score, percentage and status follow from the points awarded |
| Quizzes.QuizAttempt.GradeAutoGradableAnswers | apps/core/app/models/quiz_attempt.rb:48-54 | answers are marked in order until one raises; then the score is computed or nothing further happens |
| Quizzes.QuizAttempt.Submit | apps/core/app/models/quiz_attempt.rb:17-25 | the method computes the specified submission, the state left by a raise included (what is correct, per type: ChoiceCorrectIff to EssayLeft) |
| Quizzes.AwardedIsEarned | apps/core/app/models/attempt_answer.rb:10-22 | the points awarded add up to those of the items that some answer gets right |
| Quizzes.SubmissionReturnsIff | apps/core/app/models/quiz_attempt.rb:17-25 | a submission returns iff the attempt was in progress and every markable answer can be checked |
| Quizzes.SubmissionScored | apps/core/app/models/quiz_attempt.rb:17-54 | a returned submission of markable answers ends graded with score and percentage in range, with full marks iff every item has a correct answer |
| Quizzes.SubmissionGradedIff | apps/core/app/models/quiz_attempt.rb:37-44 | in general it ends graded iff every answer left to a person already had points |
| Quizzes.FullPercentageIff | apps/core/app/models/quiz_attempt.rb:37-41 | 100 percent is shown iff at least 99.995 percent of the points were awarded |
| Quizzes.FailedSubmissionSticks | apps/core/app/models/quiz_attempt.rb:17-25 | when marking raises the attempt stays submitted without a score and can never be submitted again |
| Quizzes.UnansweredQuestionSticks | apps/core/app/models/attempt_answer.rb:25-28 | a question without a correct answer is enough for that |
| QuizMarks.ChoiceCorrectIff | apps/core/app/models/attempt_answer.rb:28-29 | between hashes a multiple choice is correct iff both name the same key, or neither names one |
| QuizMarks.NamedChoiceCorrectIff | apps/core/app/models/attempt_answer.rb:28-29 | an answer that names a choice is correct iff it is the one to choose |
| QuizMarks.TrueFalseCorrectIff | apps/core/app/models/attempt_answer.rb:30-31 | a true/false answer likewise, by its value |
| QuizMarks.MatchingCorrectIff | apps/core/app/models/attempt_answer.rb:35-36 | a matching answer is correct iff each of its pairs is, up to case, one of the question's and the other way round |
| QuizMarks.EssayLeft | apps/core/app/models/question.rb:18-20 | all types but essays are marked; nothing is written to those |
| QuizMarks.MarkedAnswer | apps/core/app/models/attempt_answer.rb:10-22 | a marked answer keeps question and text, says whether it is correct and earns its item's points or none |
| QuizMarks.SubmissionMarks | apps/core/app/models/quiz_attempt.rb:17-54 | a returned submission marks every answer in place and scores what was awarded |
| QuizMarks.AwardedSum | apps/core/app/models/quiz_attempt.rb:38-38 | the points awarded are summed, nil counting nothing |
| QuizMarks.PercentageNearest | apps/core/app/models/quiz_attempt.rb:40-41 | the percentage is the nearest hundredth, and none of no points |
| QuizMarks.AcceptedIff | apps/core/app/models/quiz_item.rb:7-13 | a quiz takes an edit iff it leads to positive points and no question twice, and then makes just that edit |
| QuizMarks.EditsInTurn | apps/core/app/models/quiz_item.rb:7-17 | edits are taken in turn, refused ones as if not made |
| QuizMarks.TotalLast | apps/core/app/models/quiz.rb:37-39 | the total adds up the items |
| QuizMarks.NothingPossible | apps/core/app/models/quiz_attempt.rb:39-39 | a total never stored counts as no points |
| TextFacts.PresentIff | apps/core/app/services/curriculum_pack_store.rb:67-67 | a value is present iff it has a character that is not whitespace |
| TextFacts.SpacesListed | apps/core/app/services/curriculum_pack_store.rb:67-67 | the characters that count as whitespace there |
| TextFacts.StripTrims | apps/core/app/models/attempt_answer.rb:34-34 | stripping leaves what is between the first and the last character that stay |
| TextFacts.StrippableListed | apps/core/app/models/attempt_answer.rb:34-34 | the characters it takes away |
| TextFacts.ContainsIff | apps/core/app/services/curriculum_profile_registry.rb:389-389 | a string contains another iff it has it between a front and a back |
| TextFacts.FirstDifference | apps/core/app/services/curriculum_profile_registry.rb:351-352 | strings are compared at their first difference |
| TextFacts.DigitsWritten | apps/core/app/services/curriculum_pack_store.rb:164-173 | a number is written digit by digit without leading zeros |
| DeployWindow.NextSchoolWindow | apps/core/app/services/deploy_window_service.rb:44-51 | at any time the result is the first later instant at which blocking starts, found within two skipped days |
| DeployWindow.NextSafeWindow | apps/core/app/services/deploy_window_service.rb:28-35 | the result is always a later allowed time; it is the next end of blocking iff it is a weekday before the end of school |
| DeployWindow.CurrentStatus | apps/core/app/services/deploy_window_service.rb:10-26 | when open, everything before the reported window is allowed and that instant blocked; when blocked, the other way round |
| DeployWindow.SchoolHoursSpelled | apps/core/app/services/deploy_window_service.rb:37-42 | school hours are eight to fifteen, Monday to Friday, by the calendar |
| DeployWindow.WaitIsEnoughIff | apps/core/app/services/deploy_window_service.rb:18-23 | waiting the rounded minutes leads out of the block iff the wait is whole minutes or at least half a minute over |
| DeployWindow.StartsIff | apps/core/app/services/deploy_window_service.rb:37-42 | blocking starts exactly at eight on weekdays |
| DeployWindow.EndsIff | apps/core/app/services/deploy_window_service.rb:37-42 | and ends exactly at fifteen |

## Left out

- FetchIsUncached: covers requests that are plain (no colon in the key, no version named latest); sets with other requests are settled both ways by AlwaysRightIff.
- EntriesCurrentBetweenWrites: assumes writers that finish; one that dies between its rows and its bump leaves the counter unbumped.
- UsersCarriedIff: the half from failure to an uncarried entry is about mapping tables that only these syncs wrote.
- ResolveIsUncachedAfterFlush: lifecycle operations are atomic with respect to resolution; ResolverFirstGoesStale shows what their two bumps do when they are not.
- PackFirstIsRight, NeverOvertakenIff: one operation with two bumps at a time, no import and no change of courses, schools or assignments during a run; one resolution asks the pack store and the rows in a single step.
- NeverOvertakenIff: is about operations whose default, before and after, is among the references considered.
- SmallestValidates: is about hosts whose JSON schema accepts the profile; the schema itself is a parameter.
- ResolveIsUncachedAfterFlush: trace id and timestamp are not part of a resolution, and the keys derived from the profile alone are not listed.
- NoWindowExceeds: needs one period per key and a clock that does not run backwards; times are whole microseconds, not floats.
- AlwaysFrontIff: is about matches with unique ids per type and a downcasing that tells some two titles apart; under given titles a reached tie may still happen to do no harm.
- StreamingIsParsing: is stated one way for the tokens, since different lines may deliver the same tokens; for the lines ReassembledExactIff goes both ways.
- SubmissionScored: is about attempts whose answers are all markable automatically; marks given by hand are not part of this model.
- CurrentStatus: one time zone without clock shifts.
- Profiles: top-level keys are strings throughout (`stringify_keys` is the identity), and a payload that is not a hash is not modelled; a `versioning` section that is a string raises here.
- Numbers in JSON compare by their text, so 1 and 1.0 differ in a quiz answer here.
- Loading of the shipped profiles from files, their order and their JSON schema.
- `list`, capability schemas, primitive inventories and metrics of the pack store; a cache's time to live is an eviction at any moment.
- One tenant at a time; feature flags are given rather than read from the database.
- One clock reading per lifecycle operation; a failing database write in the middle of one.
- OneRoster: the HTTP client, log entries, timestamps, course curriculum metadata, validations of schools and sections; dates come parsed and organisations filtered to schools. The bodies of the session and class records are functions, not methods, so their in-place updates are modelled on values. New rows of all tables take their ids from one counter.
- QTI: XML text, namespaces and escaping; points as floats beyond a plain decimal (sign, exponent, rounding); sorting of options without an ident, which raises.
- Standards: the query behind the list, the other columns as more than one value, and the busting of cached trees.
- Rate limiter: the lock that makes a call atomic.
- Streams: characters split across chunks, HTTP errors after the stream, authentication.
- Search: the text queries, ranking and policies of the database; each type's matches are given with their ranks, and the query string is taken as long enough.
- Gradebook: number formatting, and how the payload is computed.
- Quizzes: availability, attempt limits, accommodations, status changes of a quiz, and marking by hand.
- Authorisation policies, serializers, plain record keeping and the user interfaces, which hold no algorithm.
