# Verified model of the developer portal's state-keeping core

The portal reads what an organization's repositories say about themselves and keeps a graph of services, packages,
APIs and runtime resources that people also edit; it signs people in, admits them to organizations and walks them
through onboarding. This project models the parts of it whose correctness depends on many calls in any order, and
proves what they keep.

`dafny verify dfyconfig.toml` checks everything.

## What is modelled

**The architecture reconciler.** Pass one turns a repository's files into facts (`Extraction`, `ConfigFiles`,
`SpecFiles`, `Collector`), each with a verdict on whether everything was seen. Pass two turns an organization's facts
into library edges (`Libraries`), consumption edges (`Consumption`), APIs (`Apis`) and resources (`Resources`) by mark and
sweep over tables of soft-deleted rows (`DerivedRows`). Relationship rows are also declared, edited and deleted by people
and hidden by suppressions (`Relationships`, `RelationshipStore`). `Reconciler` puts one run together. What follows from it
is in `RelationshipRuns`, `ApiRuns` and `ResourceRuns` for histories of runs, in `FactRuns` for histories of syncs, in
`LibraryProperties`, `ConsumptionMerge`, `ConsumptionProperties` and `ResourceProperties` for which rows the tables then
hold live, in `RelationshipContent`, `EdgeContent`, `ReconciledRows`, `ApiContent` and `ResourceContent` for what those
rows say, in `PeopleEdits` for what people's calls do to them, and in `CollectorProperties`, `CollectorContent`,
`ConfigProperties`, `ConfigHosts`, `ConfigTopology` and `ConfigContent` for what a tree's files yield. `HostNames` and
`TextProperties` say what names and the string operations on them mean.

**Refresh-token families** (`Tokens`), **membership and invites** (`Membership`), **the onboarding walk** (`Onboarding`),
each as a class over its tables, a step function the methods are proved against, and invariants over every run.
`TokenProperties`, `Invitations` and `Walks` say call by call what those steps do, from the state before and the arguments
alone.

**Self-contained algorithms**: CI and test detection (`Detect`, `DetectProperties`, `DetectEvidence` over `PathSegments`),
the LCOV reader (`Lcov`, `LcovProperties`), the PostgreSQL text-array printer and parser (`StringArray`, `ArrayElements`).

### Conventions

- A table is a sequence of rows whose id is their position, so insertion order is `created_at` order. Row identities
  are those of the Postgres layer: a relationship is (organization, source, target, kind, derivation key, fingerprint); an
  API is (repository, spec path); a shared resource is its locator within an organization and a scoped one adds its
  repository; a claim on a resource is (repository, resource, key, fingerprint). An upsert prefers a live twin over a
  soft-deleted one, and the newest among twins.
- The three nullable columns of a derived row (key, fingerprint, last seen) are one optional `Mark`. A row without a mark
  is a person's. Times are in microseconds.
- Every service call is one atomic step. Storage failures are inputs: `calls` is how many storage calls succeed before
  one fails, and `loads`/`stores` stand for a whole group of reads or writes.
- Hashes are taken as injective: a fingerprint is its NUL-joined text, and the collision results assume parts without
  NUL. Tokens and ids are never guessed or repeated: presenting one is naming its position.
- Maps that Go walks in an arbitrary order are walked in an arbitrary order here too.
- YAML, JSON, manifest, connection-string and hostname parsers and the specification sniffer are function parameters,
  and so is fetching a file. Letter case is folded for ASCII letters only.
- Tuple keys that Go joins with NUL bytes into one string (`resourceKey`, the agreement key) are datatypes or tuples.

### Where the code says otherwise than its comments

The code is what is modelled. Each of these comments is disproved or given its exact condition:

| comment | result |
|---|---|
| a library fingerprint identifies one edge | `LibraryProperties.FingerprintsIdentifyEdgesIff`: unless two repositories declare one dependency at one path, as in `LibraryProperties.TwoConsumersCollide` |
| bumping a key's version retires the old key's rows | `RelationshipRuns.OldKeyRowsOutliveAVersionBump` |
| promotion keeps the graph from holding two competing truths | `RelationshipRuns.DuplicateBesidePromotedIff`; `RelationshipRuns.PromotedThenDuplicated` is a run where it does not |
| production evidence outranks test evidence for the rule id | `ConsumptionProperties.ProductionOwnsIdentityIff`: unless the first host to name the target's service stands in a test file and a production host is listed before it, as in `ConsumptionProperties.TestFileNamesTheEdge` |
| both evidence paths are kept | `ConsumptionMerge.EvidenceKeptIff` |
| the moment no required step is pending, the walk is done | `Onboarding.VerifyingNeverConcludes`, `Onboarding.CompletesIff` |
| adding a required step reopens the flow | `Onboarding.AddingAStepReopensNothing` |
| same tree, same extractor: the fact cannot have changed | `Extraction.ObservingIsFaithful`: if every sync observes the tree it names; files are fetched by branch, and `Extraction.CompleteFactIsKept` shows that what a moving branch left behind stays until the tree identifier changes |

## Model

| member | source | states |
|---|---|---|
| DerivedRows.ReconciledExactly | internal/services/architecture_service.go:416-476 | after the writes and the sweep of one run, every claim has a live row, every row that was in scope and recent is still covered, and a row of the key is live only for a claim or because another run observed it since the start |
| DerivedRows.LastWriteHolds | internal/storage/postgres/postgres_repository.go:740-804 | in a batch of upserts, the row of an identity ends up holding what the last claim with that identity said |
| DerivedRows.RowHoldsItsLast | internal/storage/postgres/postgres_repository.go:740-804 | when no two rows share an identity, a row that stands for some claim of a batch holds the last claim that it stands for |
| DerivedRows.PutAllCovers | internal/storage/postgres/postgres_repository.go:740-804 | after a batch of upserts every claim has a live row of its identity observed at the run's time |
| DerivedRows.PutAllKeepsUnique | internal/storage/postgres/postgres_repository.go:740-804 | reviving a soft-deleted twin instead of inserting keeps at most one row, live or deleted, per identity |
| DerivedRows.PutAllFrame | internal/storage/postgres/postgres_repository.go:740-804 | a row that no claim of the batch identifies is not changed |
| DerivedRows.NoSweepNoRetraction | internal/storage/postgres/postgres_repository.go:740-804 | upserts alone never soft-delete a row |
| Relationships.RunLeavesExactly | internal/services/architecture_service.go:416-476 | a completed run leaves live under its key exactly what its non-self, unsuppressed edges stand for plus what an overlapping run observed, whatever the old rows, edge order or collisions |
| Relationships.Convergence | internal/services/architecture_service.go:416-476 | without overlap the live fingerprints and identities of the key are exactly those asked for |
| Relationships.ConvergesIffOverlapIsWanted | internal/services/architecture_service.go:425-427 | a completed run converges if and only if everything an overlapping run observed is still wanted |
| Relationships.LastEdgeDecides | internal/services/architecture_service.go:429-459 | among edges that share an identity the last one decides the row's content |
| Relationships.NoRetractionWithoutEvidence | internal/services/architecture_service.go:461-473 | incomplete facts, or any failed storage call, mean that no live row of any key is retired |
| Relationships.RunKeepsUnique | internal/services/architecture_service.go:416-476 | a run, finished or not, leaves at most one row per derived identity |
| RelationshipContent.EveryEdgeIsSaid | internal/services/architecture_service.go:429-459 | after a finished run the last wanted edge of each row has a live row with that edge's ends, kind, caption, origin, confidence, metadata and fingerprint, stamped by the run |
| RelationshipContent.EveryLiveRowSaysItsLastEdge | internal/services/architecture_service.go:416-476 | and after a finished, complete run without overlap every live row of the key says exactly what one edge says: the last of those that stand for it |
| RelationshipContent.RunFinishesIff | internal/services/architecture_service.go:416-476 | a run finishes if and only if storage lasts for the listing, every edge that reaches the table and the sweep of a complete set, and the table accepts them all; it then reports how many it wrote and whether it swept |
| RelationshipStore.Store.UpsertDerivedRelationship | internal/storage/postgres/postgres_repository.go:740-804 | refuses an invalid or keyless row, else revives and refreshes the row of that identity or inserts one |
| RelationshipStore.Store.SweepDerivedRelationships | internal/storage/postgres/postgres_repository.go:811-824 | refuses an empty key, else soft-deletes exactly the live rows of the key last seen before the start |
| RelationshipStore.Store.WriteEdges | internal/services/architecture_service.go:429-459 | the loop writes the rows of the wanted edges in order and stops at the first write that fails, counting those that landed |
| RelationshipStore.Store.ApplyEdges | internal/services/architecture_service.go:416-476 | the whole call is the run step of the specification for every storage-failure point; what that step writes into a row is `RelationshipContent.EveryLiveRowSaysItsLastEdge`, which rows stay live `Relationships.RunLeavesExactly`, and when it finishes `RelationshipContent.RunFinishesIff` |
| RelationshipStore.Store.CreateRelationship | internal/services/repository_relationship_service.go:191-221 | every error case in order, else one new unmarked row |
| RelationshipStore.Store.UpdateRelationship | internal/services/repository_relationship_service.go:223-258 | every error case in order with the error returned, else the edited row with its mark dropped; every other row is unchanged |
| RelationshipStore.Store.DeleteRelationship | internal/services/repository_relationship_service.go:260-268 | not found, foreign, or exactly that row soft-deleted |
| RelationshipStore.Store.CreateSuppression | internal/storage/postgres/postgres_repository.go:838-853 | accepted if and only if all three parts are present, and then exactly that suppression is added to those recorded |
| PeopleEdits.DeclaringAddsOneRowIff | internal/services/repository_relationship_service.go:191-221 | a declaration adds one live, unmarked row with the ends, kind and words asked for, manual origin and full confidence, if and only if the kind is known and the ends are different repositories of the organization |
| PeopleEdits.DeclaringIsRefusedWith | internal/services/repository_relationship_service.go:191-221 | otherwise it is refused for its form, then for its source, then for its target, missing or foreign |
| PeopleEdits.EditingChangesOneRowIff | internal/services/repository_relationship_service.go:223-258 | an edit of a sound row goes through if and only if the row is the caller's and what is asked for is allowed; that row alone changes, in what was asked for alone, and loses its mark |
| PeopleEdits.DeletingChangesOneRowIff | internal/services/repository_relationship_service.go:260-268 | a deletion soft-deletes the row if and only if it is the caller's, and changes nothing else |
| PeopleEdits.ForeignRowsAreForbidden | internal/services/repository_relationship_service.go:295-307 | a missing or deleted row is not found and another organization's is forbidden |
| PeopleEdits.OrganizationsAreIsolated | internal/services/repository_relationship_service.go:281-307 | no sequence of calls and runs of other organizations, under other keys, touches an organization's rows or adds to them |
| PeopleEdits.SuppressionHidesExactly | internal/services/architecture_service.go:478-488 | a suppression hides its own fingerprint, from runs of its own organization and key, and nothing else |
| PeopleEdits.EveryRowIsSound | internal/storage/postgres/postgres_repository.go:740-804 | in every reachable state every row joins two different repositories of an organization, with a known kind and origin and a confidence between 0 and 1 |
| RelationshipRuns.UntouchedRowsStay | internal/services/architecture_service.go:406-415 | over every interleaving a row changes only by a person naming it or a run under its own key |
| RelationshipRuns.PromotedRowBelongsToPeople | internal/services/repository_relationship_service.go:249-253 | once promoted, no sequence of runs of any key touches the row again |
| RelationshipRuns.OldKeyRowsOutliveAVersionBump | internal/services/architecture_service.go:153-158 | runs under a new key leave every row of the old key as it was |
| RelationshipRuns.IdentitiesAreUnique | internal/storage/postgres/postgres_repository.go:740-804 | in every reachable state at most one row carries a derived identity |
| RelationshipRuns.VanishAndReturnKeepsId | internal/storage/repository.go:130-147 | a fact that vanishes and returns is always carried by the same row id while nobody edits it |
| RelationshipRuns.EveryRowIsStamped | internal/services/architecture_service.go:425-427 | in every reachable state each marked row was stamped by a run of its key in the history, one millisecond after that run started |
| RelationshipRuns.ConvergesOverAnyHistory | internal/services/architecture_service.go:416-476 | after any history, a completed run started more than a millisecond after every earlier run of its key leaves live exactly what it asks for |
| RelationshipRuns.DuplicateBesidePromotedIff | internal/services/repository_relationship_service.go:249-253 | after a promotion the next finished run of the key leaves a second live row for the dependency if and only if its edges still contain it unsuppressed |
| RelationshipRuns.PromotedThenDuplicated | internal/services/repository_relationship_service.go:249-253 | derive, edit, derive again: the table ends with two live rows for one dependency |
| RelationshipRuns.OtherKeysKeepLiveIdentities | internal/services/architecture_service.go:406-415 | a run changes no live identity of any other key |
| RelationshipRuns.SuppressedStaysGone | internal/services/architecture_service.go:442-444 | a suppressed fact that has gone never comes back |
| RelationshipRuns.SuppressionIsDurable | internal/services/architecture_service.go:478-488 | a suppression followed by one complete, non-overlapping run removes the fact for every later run |
| RelationshipRuns.SuppressionsStay | internal/storage/postgres/postgres_repository.go:838-853 | no event of the model withdraws a suppression |
| Reconciler.ArchitectureService.Reconcile | internal/services/architecture_service.go:314-404 | nodes first, then libraries, then consumption: the final state of all three tables and the answer for every failure point |
| Reconciler.ArchitectureService.ReconcileNodes | internal/services/architecture_service.go:347-404 | APIs and then resources, each repository in turn whatever happens to the others, unless a listing fails |
| Reconciler.ArchitectureService.ReconcileEdges | internal/services/architecture_service.go:324-344 | the library run always, the consumption run exactly when the library run finishes and the hosts facts can be listed, and success exactly when the consumption run finishes |
| Reconciler.ReconcilingKeepsOtherRows | internal/services/architecture_service.go:406-415 | a reconciliation leaves every row carrying neither of its two keys as it was |
| Reconciler.LibraryRowsAreTheDependencies | internal/services/architecture_service.go:416-476 | after one complete library run the live rows of its key are exactly the stated, unsuppressed dependencies on the only other publisher |
| Reconciler.ConsumptionRowsAreTheMatches | internal/services/architecture_service.go:416-476 | after one complete consumption run a live row joins S to T over a kind if and only if a consumed host of S names something only T declares and its merged fingerprint is not suppressed |
| Reconciler.ReconciledLibraries | internal/services/architecture_service.go:314-345 | the table a successful reconciliation leaves, after any history: its live library rows are exactly the dependencies the packages facts state and nobody suppressed |
| Reconciler.ReconciledConsumption | internal/services/architecture_service.go:314-345 | of the same table: a live consumption row joins S to T over a kind if and only if the hosts facts say so and the merged fingerprint is not suppressed |
| ReconciledRows.LibraryRowsSay | internal/services/architecture_packages.go:143-197 | of that table: a live library row has origin manifest, confidence 1.0, and the caption, ecosystem, package, manifest path, purl and version of the first requirement of its source for that package at that path, and its target is the only publisher |
| ReconciledRows.ConsumptionRowsSay | internal/services/architecture_consume.go:127-257 | of that table: a live consumption row has confidence 0.85 if and only if a host of its source names a service of the target outside `depends_on`, else 0.75, and the rule, tier, path, variable, test mark and further paths of the hosts behind it |
| Reconciler.SuppressionReachesTheNodes | internal/services/architecture_service.go:478-488 | a recorded suppression hides the API or resource of that key and fingerprint from every later run |
| Reconciler.UnseenFileRetractsNoEdge | internal/services/architecture_service.go:461-468 | one truncated tree, overlong shortlist, or unreadable or unparsable file seen by the last sync to land of any repository means that, from what the store then holds, the edge family retires nothing |
| Reconciler.UnseenFileKeepsItsClaims | internal/services/architecture_resources.go:74-108 | the same in the configuration the last sync to land saw keeps all of that repository's resource claims, whatever complete fact was stored before |
| Reconciler.UnseenFileKeepsItsApis | internal/services/architecture_apis.go:142-147 | and anything unseen among the specification candidates of that sync keeps all of its APIs |
| Reconciler.FamiliesAreDisjoint | internal/services/architecture_consume.go:53-55 | the library and consumption keys of any two organizations differ |
| Fingerprints.FingerprintIsInjective | internal/services/architecture_service.go:496-499 | fingerprints of equally many NUL-free parts are equal only for equal parts |
| Libraries.PackageIndex.Add | internal/derive/index.go:41-50 | a claimant is added to one name and to no other; blank parts are ignored |
| Libraries.PackageIndex.Resolve | internal/derive/index.go:59-72 | owned by the only claimant, ambiguous with two or more, else not found |
| Libraries.PackageIndex.Ambiguities | internal/derive/index.go:86-106 | lists, in order, exactly the names with two or more claimants and all of them |
| Libraries.AmbiguitiesAreDetermined | internal/derive/index.go:86-106 | any two listings meeting that description are equal |
| Libraries.DeriveSource | internal/services/architecture_packages.go:143-197 | one source's edges with each fingerprint emitted once; `EdgeContent.SourceEdgeStatesTheFirst` says which requirement an edge states |
| Libraries.Derive | internal/services/architecture_packages.go:117-199 | the edges hold every source's edges in some order, complete exactly when every fact is, with the reasons of the incomplete ones |
| LibraryProperties.IndexHoldsThePublishers | internal/derive/index.go:41-50 | the index built from all facts maps every name to exactly its publishers |
| LibraryProperties.LibraryEdgesRefineTheFacts | internal/services/architecture_packages.go:117-199 | every edge states a dependency on the only other publisher of a declared name, and every such dependency has its edge |
| LibraryProperties.LibraryCollisions | internal/services/architecture_packages.go:169-172 | two edges share a fingerprint if and only if they share target, package and manifest path; distinct ones then differ in source |
| LibraryProperties.FingerprintsIdentifyEdgesIff | internal/services/architecture_packages.go:169-172 | the fingerprints of an organization's library edges are pairwise distinct if and only if no two repositories depend on one package and declare it at one manifest path |
| LibraryProperties.TwoConsumersCollide | internal/services/architecture_packages.go:169-172 | the facts of one library and two consumers for which two edges share a fingerprint |
| EdgeContent.SourceEdgeStatesTheFirst | internal/services/architecture_packages.go:143-197 | an edge states, in caption and metadata, the first requirement of its source for that package at that path, at full confidence, for the package's only publisher |
| EdgeContent.LibraryEdgeSays | internal/services/architecture_packages.go:117-199 | the same of every edge derived from an organization's facts |
| EdgeContent.RulesTellEcosystems | internal/services/architecture_packages.go:143-172 | two known ecosystems never share a rule |
| Consumption.HostIndex.Add | internal/services/architecture_consume.go:72-81 | adds a repository under the normal form of a name |
| Consumption.HostIndex.Resolve | internal/services/architecture_consume.go:83-95 | resolves a name only to its single declarer |
| Consumption.MatchHost | internal/services/architecture_consume.go:194-212 | service label first, then, unless the host is a compose alias, ingress host, with the rule and confidence of the branch taken |
| Consumption.Agreement.MergeConsumeEdge | internal/services/architecture_consume.go:220-257 | the map after the call: inserted, or merged by the specification |
| Consumption.MergeSource | internal/services/architecture_consume.go:127-170 | one repository's consumed hosts folded into the agreement |
| Consumption.Derive | internal/services/architecture_consume.go:97-177 | the edges are the merged evidence of exactly the keys that have any, each once, in whatever order the maps are walked |
| ConsumptionMerge.MergeHasClosedForm | internal/services/architecture_consume.go:220-257 | folding any non-empty list gives the maximum confidence, test-only iff all are, the first production path, later paths once each, and the rule, tier and fingerprint of the edge that last took over |
| ConsumptionMerge.EvidenceKeptIff | internal/services/architecture_consume.go:236-254 | every path survives the merge if and only if the first edge's does: it is production, all are test, or its path recurs |
| ConsumptionMerge.IdentityIsTestIff | internal/services/architecture_consume.go:228-254 | rule, tier and fingerprint of a merged edge come from one piece of evidence, which is test evidence if and only if all of it is, or the first of the greatest confidence is and production evidence precedes it |
| ConsumptionMerge.StrongerTestEdgeTakesOver | internal/services/architecture_consume.go:228-235 | a stronger test edge after a production edge takes rule and fingerprint while the edge still reads as production |
| ConsumptionMerge.ReplacedTestPathIsLost | internal/services/architecture_consume.go:243-250 | a test path replaced by a production path is nowhere in the merged edge |
| ConsumptionProperties.IndexesHoldTheDeclarers | internal/services/architecture_consume.go:97-126 | both indexes map every name to exactly the repositories that declare it |
| ConsumptionProperties.ConsumptionEdgesExactly | internal/services/architecture_consume.go:97-177 | an edge (S, T, kind) exists if and only if a consumed host of S names something only T declares, T not being S |
| ConsumptionProperties.ConfidenceExactly | internal/services/architecture_consume.go:194-235 | an edge's confidence is a declared host's if some evidence names a service of the target outside a compose file, and a topology hint's otherwise; never a sum |
| ConsumptionProperties.ProductionOwnsIdentityIff | internal/services/architecture_consume.go:127-257 | a derived edge reads as test-only if and only if every host behind it is a test file's; its rule is a test file's if and only if that holds, or the first host to name the target's service stands in a test file and a production host behind the edge is listed before it |
| ConsumptionProperties.TestFileNamesTheEdge | internal/services/architecture_consume.go:228-257 | the facts of two repositories whose edge reads as production and carries the rule of a test file |
| ConsumptionProperties.ConsumptionIsOrderIndependent | internal/services/architecture_consume.go:97-177 | any two walks over the same facts yield the same edges with all their metadata |
| ConsumptionProperties.ConsumptionCollisions | internal/services/architecture_consume.go:151-160 | two edges share a fingerprint if and only if they share source and target and the evidence behind their identities has the same rule, host and path; distinct ones then differ in kind |
| EdgeContent.InClusterNameGivesEdge | internal/services/architecture_consume.go:194-212 | a host written from a service name, alone or with any domain, any port or both after it, in any letter case, gives an edge to the only repository that declares the service, at the greater confidence unless it stands in `depends_on` |
| EdgeContent.OnlyNamesGiveEdges | internal/services/architecture_consume.go:97-177 | and every edge comes from such a host, or from one that only its target declares as a public host |
| EdgeContent.KindIff | internal/services/architecture_consume.go:283-299 | a connection is asynchronous if and only if a broker marker stands somewhere in its variable's name, in any letter case |
| EdgeContent.ConsumptionEdgeSays | internal/services/architecture_consume.go:127-257 | what a derived edge says of the hosts behind it: strength of the strongest, name of the first, path and variable of the first outside test files, every later path once, and rule, tier and fingerprint of the first strongest or the first outside test files, whichever comes later |
| HostNames.LabelOfHost | internal/derive/resources.go:413-428 | a service name alone, or with any domain, any port or both after it, in any letter case, has the normal form of the name for its label |
| HostNames.NormalIsNormal | internal/derive/resources.go:418-419 | normalising a name twice changes nothing more |
| AnyOrder.EveryOrderIsTheSame | internal/derive/resources.go:287-327 | folding pairwise commuting steps gives one result for every order of the keys |
| Collector.ResourceCollector.AddResource | internal/derive/resources.go:168-194 | the resources after the call: ignored, inserted, or agreed with the stored finding |
| Collector.ResourceCollector.AddConsumedHost | internal/derive/resources.go:261-283 | the consumed hosts after the call: placeholder dropped, inserted, or strengthened |
| Collector.ResourceCollector.ScanEntry | internal/derive/resources.go:287-327 | what one variable of an environment adds |
| Collector.ResourceCollector.ScanEnvironment | internal/derive/resources.go:287-327 | the collector after a file's environment, whatever order the map is walked in |
| Collector.ResourceCollector.Resources | internal/derive/resources.go:430-442 | every stored finding once, sorted by engine and display name; findings sit under their own keys whatever was read (`ConfigProperties.ReadingIsTidy`) |
| Collector.EntriesCommute | internal/derive/resources.go:287-327 | any two entries of one environment commute from every collector state |
| Collector.EveryOrderScansTheSame | internal/derive/resources.go:287-327 | every permutation of an environment yields the same collector |
| CollectorProperties.StoredUnderTheirKeys | internal/derive/resources.go:156-194 | every stored finding sits under its own key, so the scoped-to-shared branch is never taken |
| CollectorProperties.EvidenceIsTheFirstThree | internal/derive/resources.go:196-206 | the evidence kept is the first three distinct paths in order |
| CollectorProperties.ListingIsDeterminedIff | internal/derive/resources.go:430-442 | the sorted listing is unique if and only if no two findings share engine and display name |
| CollectorProperties.PortsTie | internal/derive/resources.go:330-339 | two connection strings differing only in port are stored apart and always tie in the listing |
| CollectorContent.KeptHostSums | internal/derive/resources.go:261-283 | over any list of sightings a host is kept under a variable if and only if something names it there and it is no placeholder, with the path of its last sighting outside test files, a test mark only if all are test files', and the greatest confidence with the rule that first gave it |
| CollectorContent.KeptResourceSums | internal/derive/resources.go:156-206 | over any list of findings a resource is kept if and only if some finding with an engine has its key: the first of them, with the greatest confidence, its rule, and the first three distinct paths of all |
| CollectorContent.ConnectionKeyIff | internal/derive/resources.go:88-104 | a variable is read as a connection if and only if a marker stands somewhere in its name, in any letter case |
| CollectorContent.PlaceholdersAreRecognised | internal/derive/dsn.go:156-193 | the known placeholder hosts in any letter case, and every host with a template's character anywhere in it |
| CollectorContent.TiesIff | internal/derive/resources.go:328-339 | two connection strings tie in the listing if and only if they agree on engine, host and a host's namespace |
| ConfigFiles.ReadCompose | internal/services/architecture_resources.go:132-179 | images and environments of all services first, then the topology and the names consumed; which those are is `ConfigHosts.ComposeHostsExactly` and `ConfigTopology.ComposeDependenciesExactly`, stated from the file's services alone |
| ConfigFiles.ReadHelmChart | internal/services/architecture_resources.go:181-202 | the subcharts recorded in order, each as a scoped finding under its alias or name |
| ConfigFiles.ReadK8sManifest | internal/services/architecture_resources.go:204-216 | declared services and hosts, then the environment |
| ConfigFiles.CollectConfig | internal/services/architecture_resources.go:74-130 | every candidate read once, with the inspection verdict; of a file that is not understood only a manifest's documents are kept |
| ConfigProperties.ReadingIsTidy | internal/derive/resources.go:156-194 | whatever files are read, every finding is stored under its own key and its key determines all of it but the evidence |
| ConfigProperties.FindingsExactly | internal/services/architecture_resources.go:74-216 | the findings of a list of files are exactly those some file names: a scoped one for each engine of a compose file and each subchart with an engine, a shared one for each connection-like variable whose value parses to a shared locator |
| ConfigProperties.ExtractResources | internal/services/architecture_resources.go:45-48 | the sorted findings of the candidates with the inspection verdict |
| ConfigProperties.CompleteFindingsExactly | internal/services/architecture_resources.go:45-48 | a complete extraction lists exactly the resources the tree's files name |
| ConfigProperties.LiveClaimsAreTheResourcesOfTheTree | internal/services/architecture_resources.go:246-326 | from tree to table: after a finished reconciliation the repository's live claims are exactly those for the tree's unsuppressed resources |
| ConfigHosts.ComposeHostsExactly | internal/services/architecture_resources.go:132-179 | a compose file makes a host consumed if and only if an environment names it under that variable, or, under none, some service depends on it and it is neither itself, nor an engine of the file, nor a placeholder |
| ConfigHosts.HostsExactly | internal/services/architecture_resources.go:74-216 | a host is consumed under a variable if and only if some file read says so |
| ConfigHosts.DeclarationsExactly | internal/services/architecture_resources.go:204-216 | services and public hosts are declared exactly by the Kubernetes manifests that list them |
| ConfigTopology.EngineOrNone | internal/services/architecture_resources.go:132-160 | a name counts as an engine of a compose file if and only if some service of that name runs one |
| ConfigTopology.ComposeDependenciesExactly | internal/services/architecture_resources.go:161-179 | a compose file records a line from one name to another if and only if a service of the first name depends on the second, which is not itself, with the engine that the last service of that name to run one runs, or none |
| ConfigTopology.DependenciesExactly | internal/services/architecture_resources.go:74-179 | the topology read off a tree is exactly the lines of its compose files |
| ConfigTopology.HintsExactly | internal/derive/resources.go:287-327 | an engine is hinted at if and only if some variable of some file read hints at it, by its name or by a connection string that identifies no instance |
| ConfigContent.KeptHostIsHeard | internal/services/architecture_resources.go:74-216 | what is kept of a host over a tree sums up the files that name it: rule and confidence by whether a variable or `depends_on` names it, the path of the last file outside tests, a test mark only if all of them are test compose files |
| ConfigContent.KeptResourceIsCited | internal/services/architecture_resources.go:74-216 | what is kept of a resource over a tree cites, in order, the first three distinct files that name it |
| SpecFiles.ExtractSpecs | internal/services/architecture_apis.go:44-76 | the sniffed specifications of the candidates with the inspection verdict |
| SpecFiles.CompleteSpecsExactly | internal/services/architecture_apis.go:44-76 | a complete extraction holds exactly the specifications of the tree |
| SpecFiles.SpecsInOrder | internal/services/architecture_apis.go:44-76 | specifications keep the order of their files |
| SpecFiles.LiveApisAreTheSpecsOfTheTree | internal/services/architecture_apis.go:96-155 | from tree to table: after a finished reconciliation the live paths are exactly the tree's unsuppressed specifications |
| Resources.ResourceStore.UpsertDerivedResource | internal/storage/postgres/postgres_repository.go:960-1018 | an invalid row is refused; else the row of the place is revived or inserted, a row without a mark stays without one, and its id is returned |
| Resources.ResourceStore.UpsertDerivedRepositoryResource | internal/storage/postgres/postgres_repository.go:1028-1078 | an invalid claim is refused; else the claim of that identity is revived or inserted |
| Resources.ResourceStore.RecordFinding | internal/services/architecture_resources.go:262-306 | a resource and then the claim on it, or as much of that as storage and validation allow |
| Resources.ResourceStore.RecordFindings | internal/services/architecture_resources.go:262-306 | the write loop: resource then claim for each finding, stopping at the first failure |
| Resources.ResourceStore.ReconcileResources | internal/services/architecture_resources.go:246-326 | one repository's reconciliation for every failure point, with the sweep behind its completeness gate |
| Resources.ResourceStore.RetireOrphanResources | internal/storage/postgres/postgres_repository.go:1104-1121 | exactly the live derived resources of the organization without a live claim are soft-deleted |
| Resources.ResourceStore.ReconcileNodes | internal/services/architecture_service.go:371-402 | all facts in turn, failures skipped, and retirement only if some sweep was authorised |
| ResourceProperties.ReachableTablesAreSound | internal/services/architecture_service.go:371-402 | in every reachable state live claims point at live resources, scoped resources are claimed only by their own repository, and one place has one row |
| ResourceProperties.LiveExactlyWhenClaimed | internal/services/architecture_service.go:390-402 | after a run with an authorised sweep and a successful retirement, a derived resource is live if and only if some repository still claims it |
| ResourceProperties.FactConverges | internal/services/architecture_resources.go:246-326 | a completed reconciliation leaves the repository exactly the claims its unsuppressed findings make |
| ResourceProperties.EveryRepositoryConvergesAlone | internal/services/architecture_service.go:347-404 | a repository converges whatever happens to the others in the same run |
| ResourceProperties.IncompleteFactRetractsNothing | internal/services/architecture_resources.go:306-326 | an incomplete fact or a failed reconciliation costs the repository no claim, over the whole run |
| ResourceRuns.EveryClaimIsStamped | internal/services/architecture_resources.go:246-326 | in every reachable state each claim was stamped by a run of the history that read its repository |
| ResourceRuns.ConvergesOverAnyHistory | internal/services/architecture_resources.go:246-326 | after any history, a repository whose reconciliation completes, in a run started more than a millisecond after every earlier run that read it, ends with exactly the claims its findings make |
| ResourceContent.EveryClaimOfTheRunSays | internal/services/architecture_resources.go:246-326 | and each of its live claims says what the last unsuppressed finding of that resource and fingerprint says (name, rule, confidence, evidence), of a live resource in the finding's place |
| ResourceContent.EveryFindingOfTheRunIsSaid | internal/services/architecture_resources.go:246-326 | each such finding has a live claim that says it |
| ResourceContent.ResourceSaysItsLast | internal/services/architecture_resources.go:262-290 | a completed reconciliation leaves a live resource in the place of each finding, saying what the last finding there says |
| ResourceContent.RunLeavesOthers | internal/storage/postgres/postgres_repository.go:960-1121 | no run retires or takes over a resource that a person declared, nor touches one of another organization |
| ResourceContent.PlacesAgreeIff | internal/storage/postgres/postgres_repository.go:960-1018 | two findings of a repository are about one resource if and only if they agree on scope, engine and display name, or on scope, engine, host, namespace and port, a missing port and -1 counting as one |
| ResourceContent.CompletesIff | internal/services/architecture_resources.go:246-326 | a repository's reconciliation completes if and only if its fact is believed complete, storage lasts for the listing, two writes a finding and the sweep, and the tables accept them all |
| ResourceRuns.SuppressedClaimStaysGone | internal/services/architecture_resources.go:246-306 | a suppressed claim that has gone never comes back |
| ResourceRuns.FingerprintsAgreeIff | internal/services/architecture_resources.go:258-266 | two findings share a fingerprint if and only if rule, engine, host, namespace and display name agree |
| ResourceRuns.SuppressingOnePortHidesTheOther | internal/services/architecture_resources.go:258-266 | connection strings that differ only in port are two resources, and suppressing the claim on one hides the claim on the other |
| Apis.ApiStore.UpsertDerivedApi | internal/storage/postgres/postgres_repository.go:867-920 | refuses an invalid row, else revives and refreshes the row at the path or inserts one |
| Apis.ApiStore.ReconcileApis | internal/services/architecture_apis.go:96-155 | one repository's reconciliation for every failure point, with its completeness gate |
| Apis.ApisConverge | internal/services/architecture_apis.go:96-155 | a completed reconciliation leaves live exactly the unsuppressed paths found |
| Apis.OtherRepositoriesUntouched | internal/services/architecture_apis.go:83-95 | one repository's reconciliation changes no row of another |
| Apis.IncompleteApisRetractNothing | internal/services/architecture_apis.go:142-147 | an incomplete fact or a failure retires none of the repository's rows |
| ApiRuns.EveryRepositoryConvergesAlone | internal/services/architecture_service.go:347-370 | a repository whose reconciliation completes ends a run with exactly its unsuppressed paths, whatever happens to the others |
| ApiRuns.IncompleteFactRetractsNothing | internal/services/architecture_service.go:347-370 | an incomplete fact or a failed reconciliation costs the repository no row over the whole run |
| ApiRuns.RunsKeepUnique | internal/storage/postgres/postgres_repository.go:867-920 | over every sequence of runs a repository's path has at most one row |
| ApiRuns.PathKeepsItsId | internal/storage/postgres/postgres_repository.go:867-920 | in every reachable table the row of a path is the only one, and stays so through every later run, whatever vanishes, returns or is renamed |
| ApiRuns.EveryRowIsStamped | internal/services/architecture_apis.go:96-155 | in every reachable table each row was stamped by a run of the history that read its repository |
| ApiRuns.ConvergesOverAnyHistory | internal/services/architecture_apis.go:96-155 | after any history, a repository whose reconciliation completes, in a run started more than a millisecond after every earlier run that read it, ends with exactly its unsuppressed paths |
| ApiContent.EveryApiOfTheRunSays | internal/services/architecture_apis.go:96-155 | and each of its live rows is the last unsuppressed specification of its fact at that path, with kind, title, version, operations, rule and confidence |
| ApiContent.EveryPathOfTheRunIsSaid | internal/services/architecture_apis.go:96-155 | every path with an unsuppressed specification has a live row that says the last one |
| ApiContent.CompletesIff | internal/services/architecture_apis.go:96-155 | a repository's reconciliation completes if and only if its fact is believed complete, storage lasts for the listing, every write and the sweep, and the table accepts them all |
| ApiRuns.SuppressedApiStaysGone | internal/services/architecture_apis.go:96-155 | a suppressed API that has gone never comes back |
| Extraction.Extract | internal/services/architecture_packages.go:36-83 | the manifests of the candidates in order, with the inspection verdict |
| Extraction.CompleteExactly | internal/services/architecture_packages.go:36-83 | an extraction is complete if and only if the tree was whole, the shortlist fits its ceiling and every file on it was understood or absent |
| Extraction.CompleteHoldsTheManifests | internal/services/architecture_service.go:89-110 | a complete fact holds a package or requirement if and only if a listed, non-vendored, not oversized manifest that can be read and understood declares it |
| Extraction.GatheredInOrder | internal/services/architecture_packages.go:36-83 | in the order of the files, and within a file in its own |
| Extraction.ReasonsExactly | internal/services/architecture_packages.go:36-83 | a reason is recorded if and only if that is what happened to the listing, to the ceiling or to some file read |
| Extraction.FactTable.ExtractOne | internal/services/architecture_service.go:207-264 | leaves the store alone exactly when tree, version and completeness say so or storage fails, else stores what the extractor makes of the tree, complete or not; over histories that is `FactRuns.LastSyncIsStored` |
| Extraction.CacheStaysSound | internal/services/architecture_service.go:207-264 | over any sequence of syncs every complete fact is what its version yields on its tree |
| Extraction.CompleteReadIsTheTrees | internal/services/architecture_packages.go:36-83 | a complete extraction through a sync that observes a tree yields what the whole tree holds |
| Extraction.ObservingIsFaithful | internal/services/architecture_service.go:207-264 | so every sync that observes the tree it names meets what the cache results assume |
| Extraction.CompleteFactIsKept | internal/services/architecture_service.go:219-231 | a fact stored as complete is kept, right or wrong, through every later sync of the same tree by the same version |
| Extraction.SkippingEqualsReextracting | internal/services/architecture_service.go:219-231 | a skipped extraction leaves the store as a complete re-extraction would, apart from its time |
| Extraction.StoredFactReadsAsExtracted | internal/services/architecture_service.go:507-525 | a stored fact may authorise retraction exactly when its extraction was complete |
| FactRuns.LastSyncIsStored | internal/services/architecture_service.go:207-264 | after any sequence of syncs a repository's stored fact has the tree, version, data, time, reasons and completeness of its last sync that loaded, was no skip and stored |
| FactRuns.UntouchedFactStays | internal/services/architecture_service.go:207-264 | and before any sync of it lands it is the one that was there |
| FactRuns.StoredFactRetractsIff | internal/services/architecture_service.go:244-256 | the fact in the store authorises retraction if and only if the last sync to land extracted completely, whatever complete fact it replaced |
| FactRuns.SecondSyncIsAnsweredIff | internal/services/architecture_service.go:219-231 | a second sync leaves the first one's fact if and only if that is complete, of the same named tree and by the same version |
| Facts.ReasonsAreGiven | internal/services/architecture_service.go:507-525 | the reasons against retracting are exactly those some incomplete fact gives, or that one does not decode |
| Facts.LastPayloadWins | internal/services/architecture_packages.go:120-138 | a repository is read from the last of its facts |
| Detect.DetectCI | internal/detect/detect.go:140-161 | the loop with early exit computes the first path that belongs to a CI system |
| Detect.DetectTests | internal/detect/detect.go:299-363 | the loops compute the tri-state answer, its rule and evidence |
| DetectProperties.CiExactly | internal/detect/detect.go:140-161 | yes iff some path belongs to a CI system; no iff a complete, non-empty listing has none |
| DetectProperties.CiEvidenceIsFirst | internal/detect/detect.go:140-161 | the evidence is the first such path with its system |
| DetectProperties.CiYesSurvivesExtension | internal/detect/detect.go:140-161 | extending the listing leaves a yes exactly as it was |
| DetectProperties.TestsExactly | internal/detect/detect.go:299-363 | yes iff some non-vendored path matches a rule of a language present; no iff a whole, non-empty listing with a trusted language has none |
| DetectProperties.AnswersExactly | internal/detect/detect.go:299-363 | the same of the method's answer: the verdict depends on the set of languages alone, not on how the map is walked |
| DetectProperties.TestEvidenceIsTheFirstThree | internal/detect/detect.go:330-350 | the evidence is the first up to three such paths in listing order |
| DetectProperties.TestYesSurvivesExtension | internal/detect/detect.go:299-363 | extending the listing keeps a yes, its rule and the evidence already found |
| DetectProperties.TrustedLanguagesHaveRules | internal/detect/detect.go:230-297 | the languages whose absence of tests is trusted are exactly those with rules |
| DetectProperties.ProgramLeavesOpenIff | internal/detect/detect.go:299-363 | with the program's rules the answer is unknown if and only if nothing matches and the listing is empty or truncated or no language present has any rule |
| DetectProperties.DirectoryDecides | internal/detect/detect.go:140-161 | in the program's table a path outside the exact names gets the system of its one directory, so the table's order never matters |
| DetectEvidence.CiSystemIff | internal/detect/detect.go:117-138 | a path belongs to a system if and only if it is one of its exact names, or none of anybody's and in one of its directories |
| DetectEvidence.CiNamesTheFirst | internal/detect/detect.go:140-161 | a listing gets the system of its first path that belongs to any, with that path as evidence |
| DetectEvidence.VendoredIff | internal/detect/detect.go:181-200 | a path is vendored if and only if a vendored name stands in it as a whole segment, or a test directory's with `fixtures` right below it |
| DetectEvidence.TestsNameTheFirst | internal/detect/detect.go:299-363 | the evidence starts with the first test file of the listing, and the rule is the first matching one of the language, first in the alphabet of those present, that has one for it |
| PathSegments.SegmentsStandIff | internal/detect/detect.go:183-213 | names follow one another among the segments of a path if and only if their text, joined by slashes, stands in it between slashes or its ends |
| Tokens.AuthService.RefreshTokens | internal/services/auth_service.go:307-358 | the table and outcome after presenting a token, for every failure point |
| Tokens.AuthService.GenerateTokenPair | internal/services/auth_service.go:187-225 | the access and then the refresh token are stored, or the prefix that was |
| Tokens.AuthService.RevokeTokenFamily | internal/storage/postgres/postgres_repository.go:1279-1290 | every token of the family is revoked and no other changes |
| Tokens.AuthService.RevokeRefreshTokenFamily | internal/services/auth_service.go:409-419 | logging out is the step of the specification for every failure point; what it revokes is `TokenProperties.LogoutRevokesExactly` |
| Tokens.EveryRunKeepsFamilies | internal/services/auth_service.go:183-358 | over every run a family has at most one unrevoked refresh token and parent links stay within one family, user and organization, each token rotated at most once |
| Tokens.AncestryIsTheFamily | internal/services/auth_service.go:277-300 | walking parent links back from a refresh token meets exactly the older refresh tokens of its family |
| Tokens.RotationHandsOver | internal/services/auth_service.go:329-358 | after rotating the live token the only live one is the token issued, and there is none when the call fails past the revocation |
| Tokens.IssuedPairRotatesUntilItExpires | internal/services/auth_service.go:227-331 | of a pair any call hands out, the refresh token and not the access token buys the next pair, exactly until the refresh lifetime has passed |
| Tokens.DeadFamilyStaysDead | internal/services/auth_service.go:321-326 | a family with no unrevoked token never gets one again |
| Tokens.ReuseKillsTheFamilyIff | internal/services/auth_service.go:309-326 | presenting a revoked token leaves its family dead if and only if it already was, or it is a refresh token and the family revocation got through |
| Tokens.ReuseIsFinal | internal/services/auth_service.go:321-326 | once reuse is detected and stored, no later run revives the family |
| TokenProperties.LogoutRevokesExactly | internal/services/auth_service.go:409-419 | logging out with a known token revokes it and everything of its family, if both storage calls get through, and nothing else ever |
| TokenProperties.LogoutKillsTheFamilyIff | internal/services/auth_service.go:409-419 | it leaves the family dead if and only if it already was or both storage calls get through |
| TokenProperties.LogoutIsFinal | internal/services/auth_service.go:409-419 | and then, whatever is called later, no token of the family ever buys a pair again |
| TokenProperties.LogoutWithoutFamily | internal/services/auth_service.go:409-419 | a token that never had a family is refused from then on |
| TokenProperties.RotatesIff | internal/services/auth_service.go:307-358 | a pair is handed out if and only if the token presented is a live, unexpired refresh token, its holder is in good standing and storage lasts |
| TokenProperties.RefusedBecause | internal/services/auth_service.go:307-331 | a refusal names its true reason: no refresh token, a revoked one or an expired one |
| TokenProperties.IssuedPairIsTheCallers | internal/services/auth_service.go:187-358 | the pair handed out belongs to whoever logged in or presented a token, continues that token's family or starts a new one, has its own lifetimes and the presented token for parent, and no other token changes |
| Membership.MembershipService.EnsureOrganizationMember | internal/services/auth_service.go:695-733 | existing member, first member as admin, or refused |
| Membership.MembershipService.Admit | internal/services/auth_service.go:610-649 | a redundant invite is revoked at best effort, else accepting and creating the member happen together or not at all |
| Membership.MembershipService.AdmitOAuth | internal/services/auth_service.go:1065-1089 | a member passes through, else the invite must resolve and be this organization's |
| Membership.MembershipService.SendInvite | internal/services/membership_service.go:53-126 | every refusal in order, an onboarding flow that is missing or another organization's among them, else one open invite naming the flow asked for |
| Membership.MembershipService.WithdrawInvite | internal/services/membership_service.go:134-146 | only an open invite of the same organization is revoked |
| Membership.MembershipService.UpdateMemberRole | internal/services/membership_service.go:196-221 | every refusal in order, else one role changed |
| Membership.MembershipService.DropMember | internal/services/membership_service.go:223-240 | every refusal in order, else one membership removed |
| Membership.LastAdminRefusedIff | internal/services/membership_service.go:242-251 | the last-admin refusal happens if and only if the target is an active admin and nobody else is |
| Membership.MembershipAppearsIff | internal/services/auth_service.go:610-733 | a membership appears if and only if its holder founds an empty organization, as admin, or redeems an open invite of that organization addressed to them, with its role |
| Membership.MembershipEndsIff | internal/services/membership_service.go:223-240 | a membership ends if and only if an admin's token removes an active member other than its holder and the last admin |
| Membership.EveryRunKeepsAnAdmin | internal/services/auth_service.go:695-733 | over every run, with tokens however stale, an organization with a member has an active admin, one membership was created without an invite, and each accepted invite made exactly one, in its organization and for its address |
| Membership.NeverEmptiesAgain | internal/services/membership_service.go:196-251 | an organization with a member keeps one forever, so entering without an invite never adds another |
| Invitations.InvitingAddsOneIff | internal/services/membership_service.go:53-126 | one open invite, for the address, with the role, flow and expiry asked for, is added if and only if an admin asks, the address parses, role and flow are fine and no member has the address |
| Invitations.InviteRefusedBecause | internal/services/membership_service.go:53-126 | a refusal to send one names a true reason |
| Invitations.InviteeJoinsAsInvited | internal/services/auth_service.go:610-649 | whoever owns the address, in any spelling, joins with the role that was asked for and a token that says so, once: nobody redeems the invite again |
| Invitations.StrangersAreRefused | internal/services/membership_service.go:151-174 | an invite that is spent, withdrawn, expired or another address's changes nothing, always with the same answer |
| Invitations.MembersOnlySpend | internal/services/auth_service.go:610-649 | an active member who redeems one only spends it and keeps their role |
| Invitations.InactiveMembersStayOut | internal/services/auth_service.go:610-649 | an invite does not bring back an inactive member, and a failed write changes nothing |
| Invitations.ThroughProvider | internal/services/auth_service.go:1065-1089 | through a provider an active member just gets a token, whatever invite comes along, and another organization's invite is refused |
| Invitations.EnteringExactly | internal/services/auth_service.go:695-733 | without an invite an active member gets a token, whoever comes to an organization without any member becomes its admin, and everybody else needs an invite |
| Invitations.WithdrawingExactly | internal/services/membership_service.go:134-146 | an admin withdraws exactly an open invite of the organization |
| Invitations.RoleChangesExactly | internal/services/membership_service.go:196-221 | an admin gives an active member other than themselves exactly the role asked for, unless that leaves no admin, and nobody else changes |
| Invitations.RolesChangeNoOtherWay | internal/services/membership_service.go:196-221 | no other call changes the role of somebody who stays a member |
| Invitations.ChangeRefusedBecause | internal/services/membership_service.go:196-251 | a refusal to change a role or to remove a member names a true reason |
| Invitations.TokensTellTheTruth | internal/services/auth_service.go:183-225 | a token handed out says what the table says at that moment of its holder, who is an active member and the caller |
| Invitations.NewRoleShowsInTheNextToken | internal/services/membership_service.go:196-221 | a new role shows in the next token and in none already out |
| Onboarding.OnboardingService.FindAssignment | internal/services/onboarding_run.go:500-519 | the newest live assignment of the flow to the user |
| Onboarding.OnboardingService.BuildRun | internal/services/onboarding_run.go:62-128 | the count of required steps of the flow without a progress row |
| Onboarding.OnboardingService.Mark | internal/services/onboarding_run.go:381-428 | the tables after recording an outcome, for every failure point |
| Onboarding.OnboardingService.VerifyStep | internal/services/onboarding_run.go:435-475 | the tables after a check: only a pass is recorded |
| Onboarding.OnboardingService.AssignFlow | internal/services/onboarding_service.go:630-656 | the live assignment is kept, else one is created |
| Onboarding.OnboardingService.ReplaceFlowSteps | internal/storage/postgres/onboarding_repository.go:186-257 | the whole list is saved or nothing is, with progress on dropped steps removed |
| Onboarding.EveryRunMovesOnward | internal/models/onboarding.go:411-438 | over every run at most one live assignment per flow and user, times agreeing with the status and written once, status never moving back |
| Onboarding.CompletesIff | internal/services/onboarding_run.go:416-427 | a walk becomes complete if and only if an outcome is recorded to the end while the flow is live and every other required step is already recorded |
| Onboarding.VerifyingNeverConcludes | internal/services/onboarding_run.go:435-475 | verifying the last required step leaves the walk open with nothing outstanding |
| Onboarding.AddingAStepReopensNothing | internal/services/onboarding_service.go:294-337 | adding a required step leaves a finished walk finished with that step outstanding |
| Onboarding.EditingKeepsProgress | internal/storage/postgres/onboarding_repository.go:186-257 | saving a list forgets progress on exactly the steps it drops, and a list naming a foreign step changes nothing |
| Onboarding.OnlyOwnProgressIsWritten | internal/services/onboarding_run.go:497-519 | a call writes at most one progress row: of the caller's own live assignment, for the step named, with the outcome given |
| Walks.AssigningStartsOneIff | internal/services/onboarding_service.go:630-656 | one walk, not begun and without times, is started if and only if the flow is the organization's and the user has no live walk of it |
| Walks.SavingLeavesTheList | internal/storage/postgres/onboarding_repository.go:186-257 | a save that goes through leaves the flow with exactly the steps of the list, each saying what the last input for it says and each new one under its own number; other flows keep theirs |
| Walks.OutcomeIsRecordedIff | internal/services/onboarding_run.go:381-475 | on the caller's own walk an outcome is recorded, as marked or as done for a verified step that passed, if and only if there is one and storage lasts; the walk has then begun and its start is written once |
| Walks.NoWalkNoRecord | internal/services/onboarding_run.go:497-519 | without a walk of one's own nothing is recorded |
| Walks.DeletingExactly | internal/services/onboarding_service.go:208-214 | deleting takes exactly the organization's own flow, and steps, walks and outcomes stay |
| Walks.CreatingAddsOne | internal/services/onboarding_service.go:60-120 | creating adds one live flow of the organization and nothing else |
| Onboarding.OwnIsTheOnlyWalk | internal/services/onboarding_run.go:497-519 | the walk a call acts on is the only live one of that flow and user |
| StringArray.Value | internal/models/webhook.go:14-30 | the loop prints braces around the comma-joined quoted elements |
| StringArray.Scan | internal/models/webhook.go:32-56 | NULL, text and refused types; text is stripped, split and unquoted |
| StringArray.PiecesOf | internal/models/webhook.go:32-56 | the printed text splits into the quoted elements if and only if no element has a comma, and into more otherwise |
| StringArray.RoundTripIff | internal/models/webhook.go:14-56 | reading back what was printed gives the list if and only if no element has a comma or a double quote |
| ArrayElements.EscapingIsByCharacter | internal/models/webhook.go:14-30 | printing an element is printing its characters one by one; with `ArrayElements.EscapeOneExactly`, a double quote behind a backslash and every other character as it is |
| ArrayElements.TrimQuotesExactly | internal/models/webhook.go:49-53 | reading cuts double quotes, and nothing else, off both ends of a piece, and all of them |
| ArrayElements.SentComesBackIff | internal/models/webhook.go:32-56 | elements without comma or quote come back as they are, quoted or bare as PostgreSQL sends them, except for the list of one empty bare element |
| Lcov.ParseLCOV | internal/coverage/parsers.go:48-104 | the loop computes the totals over all lines and one entry per block that names a file or counts a line |
| Lcov.Conservation | internal/coverage/parsers.go:48-104 | for every sequence of lines the totals are the sums over the files and the counts of well-formed lines, and covered never exceeds total in any file or overall |
| LcovProperties.HitLine | internal/coverage/parsers.go:78-93 | a `DA` line counts the number in its second field, whatever the first is and with or without a checksum |
| LcovProperties.FileLine | internal/coverage/parsers.go:72-75 | an `SF` line names what follows the colon, without white space at the end |
| LcovProperties.RecordEndsIff | internal/coverage/parsers.go:76-77 | a record ends exactly at a line that says `end_of_record` and nothing else |
| LcovProperties.PathIsTheLast | internal/coverage/parsers.go:48-104 | a record's file is the last one it names |
| LcovProperties.RecordsAddUp | internal/coverage/parsers.go:48-104 | the report of a tracefile is its first record's file, hit lines and counted lines, followed by the report of the rest |

## Left out

- HTTP handlers, Swagger text, logging, configuration, job queues and caches: plumbing.
- Git providers, OAuth exchange, cloning and documentation generation: foreign calls.
- `GetGraph`, `pruneEdges`, suppression listing and every read-only view: filters over the tables modelled here.
- Interleavings inside one service call: the code takes no lock to reason from; calls are atomic steps.
- `created_by`, `updated_at`, display titles and step positions: columns nothing here depends on.
- ParseGoCover, ParseCobertura, ParseJaCoCo and the scorecard counts: sums over what a library parsed.
- Password hashing, JWT signing and expiry of access tokens, login by password and organization selection.
- Creation of the organization row and its slug; membership starts at the check that admits a person to it.
- Assigning a flow from an invite is `AssignFlow` with the flow already chosen; abandoning an assignment is never done by the code.
- Duplicating a flow, its default flag and its slug: creating a flow and saving a list of new steps.
- Feedback on an onboarding: one field nothing depends on. What a step points at is only whether it resolves.
- Apis.ApiStore.UpsertDerivedApi: the organization column, which insertion sets and revival leaves as it was; rows are told apart by repository.
- Extraction.CacheStaysSound: assumes that each sync observes one tree; the listing and the files are fetched by branch name (internal/services/sync_service.go:173, 208), so a branch that moves in between breaks that assumption.
- Generating an invite's token: drawing it can fail before the invite is written.
- Sorting inside `HostsFact` and `ResourcesFact` other than the findings themselves.
- The engine table behind image names: a compose service's engine is an input. The detection results hold for any rule tables; three more are about the program's own.
