/** One organization's reconciliation, end to end: its nodes first, then each family of edges. */
module Reconciler {
  import opened DerivedRows
  import opened Facts
  import opened Relationships
  import opened RelationshipStore
  import opened RelationshipRuns
  import opened Apis
  import ApiRuns
  import opened Resources
  import Libraries
  import LibraryProperties
  import Consumption
  import ConsumptionProperties
  import Hosts
  import Extraction
  import FactRuns
  import Collector
  import ResourceProperties

  function LibraryKey(organization: string): string {
    "libdep:v1:org/" + organization
  }

  function ConsumptionKey(organization: string): string {
    "apiconsume:v1:org/" + organization
  }

  /** Everything a run reads but the suppressions: the stored facts of each kind, and when storage fails. */
  datatype Inputs = Inputs(
    apiFacts: seq<ApisFact>, apiCalls: nat -> nat, listsApis: bool,
    resourceFacts: seq<ResourcesFact>, resourceCalls: nat -> nat, retires: bool, listsResources: bool,
    packageFacts: seq<Fact<Libraries.PackagesFact>>, packageCalls: nat, listsPackages: bool,
    hostFacts: seq<Fact<Hosts.HostsFact>>, hostCalls: nat, listsHosts: bool)

  /** What is suppressed under a repository's key, for the two kinds of node. */
  function HiddenApis(suppressed: set<Suppression>, organization: string): string -> set<string> {
    repository => Hidden(suppressed, organization, ApiKey(repository))
  }

  function HiddenClaims(suppressed: set<Suppression>, organization: string): string -> set<string> {
    repository => Hidden(suppressed, organization, ResourceKeyFor(repository))
  }

  function ApiRunOf(inputs: Inputs, suppressed: set<Suppression>, organization: string, startedAt: int): ApiRuns.ApiRun {
    ApiRuns.ApiRun(organization, inputs.apiFacts, HiddenApis(suppressed, organization), inputs.apiCalls, startedAt)
  }

  function ResourceInputOf(inputs: Inputs, suppressed: set<Suppression>, organization: string): RunInput {
    RunInput(inputs.resourceFacts, HiddenClaims(suppressed, organization), inputs.resourceCalls, inputs.retires)
  }

  class ArchitectureService {
    const relationships: Store
    const resources: ResourceStore
    const apis: ApiStore

    constructor (relationships: Store, resources: ResourceStore, apis: ApiStore)
      ensures this.relationships == relationships && this.resources == resources && this.apis == apis
    {
      this.relationships, this.resources, this.apis := relationships, resources, apis;
    }

    method ReconcileAllApis(run: ApiRuns.ApiRun)
      modifies apis
      ensures apis.rows == ApiRuns.AfterRun(old(apis.rows), run)
    {
      for n := 0 to |run.facts|
        invariant apis.rows == ApiRuns.AfterFacts(old(apis.rows), run, n)
      {
        var fact := run.facts[n];
        var _ := apis.ReconcileApis(run.organization, fact, run.hidden(fact.repository), run.startedAt, run.calls(n));
      }
    }

    /**
     * Nodes, then library edges, then consumption edges; the first listing or edge family to fail stops the run.
     * `runs` is what the relationship table went through, whether or not the run succeeded: the library run exactly
     * when it is reached, and the consumption run exactly when the library run finishes and its facts can be listed.
     */
    method Reconcile(organization: string, inputs: Inputs, startedAt: int) returns (ok: bool, ghost runs: seq<Event>)
      modifies relationships, resources, apis
      ensures apis.rows == if organization == "" || !inputs.listsApis then old(apis.rows)
                           else ApiRuns.AfterRun(old(apis.rows),
                                                 ApiRunOf(inputs, old(relationships.suppressed), organization,
                                                          startedAt))
      ensures resources.Model() == if organization == "" || !inputs.listsApis || !inputs.listsResources then old(resources.Model())
                                   else ReconciledRun(old(resources.Model()), organization,
                                                      ResourceInputOf(inputs, old(relationships.suppressed), organization), startedAt)
      ensures relationships.Model() == RelationshipStore.Exec(old(relationships.Model()), runs)
      ensures if organization != "" && inputs.listsApis && inputs.listsResources && inputs.listsPackages
              then IsEdgePass(old(relationships.Model()), runs, organization, inputs, startedAt, ok)
              else runs == [] && !ok
    {
      hide IsEdgePass, ReconciledRun, ApiRuns.AfterRun, ApiRunOf, ResourceInputOf;
      ok, runs := false, [];
      if organization == "" {
        return;
      }
      var listed := ReconcileNodes(organization, inputs, startedAt);
      if !listed || !inputs.listsPackages {
        return;
      }
      ok, runs := ReconcileEdges(organization, inputs, startedAt);
    }

    /** The per-repository entities: APIs, then resources. Says whether both kinds of fact could be listed. */
    method ReconcileNodes(organization: string, inputs: Inputs, startedAt: int) returns (listed: bool)
      modifies resources, apis
      ensures listed <==> inputs.listsApis && inputs.listsResources
      ensures apis.rows == if !inputs.listsApis then old(apis.rows)
                           else ApiRuns.AfterRun(old(apis.rows),
                                                 ApiRunOf(inputs, old(relationships.suppressed), organization,
                                                          startedAt))
      ensures resources.Model() == if !listed then old(resources.Model())
                                   else ReconciledRun(old(resources.Model()), organization,
                                                      ResourceInputOf(inputs, old(relationships.suppressed), organization), startedAt)
    {
      hide ReconciledRun, ApiRuns.AfterRun, ApiRunOf, ResourceInputOf;
      var suppressed := relationships.suppressed;
      if !inputs.listsApis {
        return false;
      }
      ReconcileAllApis(ApiRunOf(inputs, suppressed, organization, startedAt));
      if !inputs.listsResources {
        return false;
      }
      resources.ReconcileNodes(organization, ResourceInputOf(inputs, suppressed, organization), startedAt);
      return true;
    }

    /** The two edge families, in order. */
    method ReconcileEdges(organization: string, inputs: Inputs, startedAt: int)
      returns (ok: bool, ghost runs: seq<Event>)
      modifies relationships
      ensures relationships.Model() == RelationshipStore.Exec(old(relationships.Model()), runs)
      ensures IsEdgePass(old(relationships.Model()), runs, organization, inputs, startedAt, ok)
    {
      hide Applied;
      ghost var before := relationships.Model();
      var libraries := Libraries.Derive(inputs.packageFacts);
      var outcome := relationships.ApplyEdges(organization, LibraryKey(organization), libraries, startedAt,
                                              inputs.packageCalls);
      ghost var first := Run(organization, LibraryKey(organization), libraries, startedAt, inputs.packageCalls);
      OneMoreEvent(before, [], first);
      runs := [] + [first];
      if outcome.Failed? || !inputs.listsHosts {
        return false, runs;
      }
      var consumption := Consumption.Derive(inputs.hostFacts);
      outcome := relationships.ApplyEdges(organization, ConsumptionKey(organization), consumption, startedAt,
                                          inputs.hostCalls);
      ghost var second := Run(organization, ConsumptionKey(organization), consumption, startedAt, inputs.hostCalls);
      OneMoreEvent(before, runs, second);
      runs := runs + [second];
      ok := outcome.Done?;
    }
  }

  /** A run of the library key over what the packages facts state. */
  ghost predicate IsLibraryRun(e: Event, organization: string, inputs: Inputs, startedAt: int) {
    && e.Run? && e.organization == organization && e.key == LibraryKey(organization)
    && e.startedAt == startedAt && e.calls == inputs.packageCalls
    && e.derived.complete == AllComplete(inputs.packageFacts)
    && Libraries.HoldsSourceEdges(e.derived.edges, Libraries.AllOwners(inputs.packageFacts),
                                  Payloads(inputs.packageFacts), Payloads(inputs.packageFacts).Keys)
  }

  /** A run of the consumption key over what the hosts facts state. */
  ghost predicate IsConsumptionRun(e: Event, organization: string, inputs: Inputs, startedAt: int) {
    && e.Run? && e.organization == organization && e.key == ConsumptionKey(organization)
    && e.startedAt == startedAt && e.calls == inputs.hostCalls
    && e.derived.complete == AllComplete(inputs.hostFacts)
    && Consumption.HoldsAgreement(e.derived.edges, inputs.hostFacts)
  }

  /**
   * What reconciling the edges puts a relationship table through: the library run; then, exactly when that one
   * finishes and the hosts facts can be listed, the consumption run. It succeeds exactly when the latter finishes.
   */
  ghost predicate IsEdgePass(before: State, runs: seq<Event>, organization: string, inputs: Inputs, startedAt: int,
                             ok: bool)
  {
    && 1 <= |runs| <= 2 && IsLibraryRun(runs[0], organization, inputs, startedAt)
    && (|runs| == 2 <==> OutcomeOf(before, runs[0]).Done? && inputs.listsHosts)
    && (|runs| == 2 ==> IsConsumptionRun(runs[1], organization, inputs, startedAt))
    && (ok <==> |runs| == 2 && OutcomeOf(Step(before, runs[0]), runs[1]).Done?)
  }

  lemma OneMoreEvent(s: State, events: seq<Event>, e: Event)
    ensures RelationshipStore.Exec(s, events + [e]) == Step(RelationshipStore.Exec(s, events), e)
  {
    assert (events + [e])[..|events|] == events;
  }

  /** A reconciliation of one organization leaves every row that carries neither of its two keys as it was. */
  lemma ReconcilingKeepsOtherRows(s: State, runs: seq<Event>, organization: string, inputs: Inputs, startedAt: int,
                                  ok: bool, id: nat)
    requires IsEdgePass(s, runs, organization, inputs, startedAt, ok) && id < |s.rows|
    requires s.rows[id].mark.None? || s.rows[id].mark.value.key !in {LibraryKey(organization), ConsumptionKey(organization)}
    ensures id < |RelationshipStore.Exec(s, runs).rows| && RelationshipStore.Exec(s, runs).rows[id] == s.rows[id]
  {
    forall e | e in runs
      ensures !Touches(e, id, s.rows[id])
    {
      assert e == runs[0] || e == runs[1];
    }
    UntouchedRowsStay(s, runs, id);
  }

  // ── the two edge families ──────────────────────────────────────────────────

  /**
   * After a complete library run without overlap, the live rows of the key are exactly the dependencies the facts
   * state: one for every declared name that a single other repository publishes, minus the suppressed ones.
   */
  lemma LibraryRowsAreTheDependencies(rows: seq<Relationship>, hidden: set<string>, organization: string,
                                      startedAt: int, calls: nat,
                                      facts: seq<Fact<Libraries.PackagesFact>>, derived: DerivedSet, d: Identity)
    requires derived.complete == AllComplete(facts) && AllComplete(facts) && LibraryProperties.NulFreeRequirements(facts)
    requires Libraries.HoldsSourceEdges(derived.edges, Libraries.AllOwners(facts), Payloads(facts),
                                        Payloads(facts).Keys)
    requires Applied(rows, hidden, organization, LibraryKey(organization), derived, startedAt, calls).1.Done?
    requires NoOverlap(rows, LibraryKey(organization), startedAt)
    ensures d in LiveIdentities(Applied(rows, hidden, organization, LibraryKey(organization), derived, startedAt, calls).0, LibraryKey(organization))
            <==> IsDependency(facts, hidden, organization, d)
  {
    Convergence(rows, hidden, organization, LibraryKey(organization), derived, startedAt, calls);
    LibraryProperties.LibraryEdgesRefineTheFacts(facts, derived.edges);
    if d in WantedIdentities(derived.edges, hidden, organization) {
      var e :| e in derived.edges && Wanted(e, hidden) && d == Identity(Place(organization, e.source, e.target, e.kind), e.fingerprint);
      var r :| LibraryProperties.DependsOn(facts, e.source, e.target, r) && e == Libraries.LibraryEdge(e.source, e.target, r);
      assert StatedBy(facts, organization, d, r);
    }
    if IsDependency(facts, hidden, organization, d) {
      var r :| StatedBy(facts, organization, d, r);
      DependencyIsWanted(facts, derived.edges, hidden, organization, d, r);
    }
  }

  ghost predicate StatedBy(facts: seq<Fact<Libraries.PackagesFact>>, organization: string, d: Identity,
                           r: Libraries.RequiredPackage)
  {
    && LibraryProperties.DependsOn(facts, d.place.source, d.place.target, r)
    && d.place.organization == organization && d.place.kind == Library && d.fingerprint == Libraries.LibraryFingerprint(r)
  }

  ghost predicate IsDependency(facts: seq<Fact<Libraries.PackagesFact>>, hidden: set<string>, organization: string,
                               d: Identity)
  {
    d.place.source != "" && d.fingerprint !in hidden && exists r :: StatedBy(facts, organization, d, r)
  }

  lemma DependencyIsWanted(facts: seq<Fact<Libraries.PackagesFact>>, edges: seq<DerivedEdge>, hidden: set<string>,
                           organization: string,
                           d: Identity, r: Libraries.RequiredPackage)
    requires Libraries.HoldsSourceEdges(edges, Libraries.AllOwners(facts), Payloads(facts), Payloads(facts).Keys)
    requires LibraryProperties.NulFreeRequirements(facts)
    requires d.place.source != "" && d.fingerprint !in hidden && StatedBy(facts, organization, d, r)
    ensures d in WantedIdentities(edges, hidden, organization)
  {
    hide LibraryProperties.EvidenceFor, LibraryProperties.DependsOn, LibraryProperties.NulFreeRequirements;
    hide Libraries.HoldsSourceEdges, Libraries.LibraryFingerprint, LibraryProperties.Publishers;
    var source, target := d.place.source, d.place.target;
    LibraryProperties.DependencyHasItsEdge(facts, edges, source, target, r);
    var e :| e in edges && LibraryProperties.EvidenceFor(e, source, target, r);
    SameFingerprint(facts, edges, e, source, target, r);
    assert Wanted(e, hidden);
  }

  /** The edge for a dependency carries the dependency's fingerprint. */
  lemma SameFingerprint(facts: seq<Fact<Libraries.PackagesFact>>, edges: seq<DerivedEdge>, e: DerivedEdge,
                        source: string, target: string, r: Libraries.RequiredPackage)
    requires Libraries.HoldsSourceEdges(edges, Libraries.AllOwners(facts), Payloads(facts), Payloads(facts).Keys)
    requires LibraryProperties.NulFreeRequirements(facts) && LibraryProperties.DependsOn(facts, source, target, r)
    requires e in edges && LibraryProperties.EvidenceFor(e, source, target, r)
    ensures e.source == source && e.target == target && source != target && target != ""
    ensures e.kind == Library && e.fingerprint == Libraries.LibraryFingerprint(r)
  {
    hide Libraries.HoldsSourceEdges, LibraryProperties.NulFreeRequirements;
    assert target in LibraryProperties.Publishers(facts, (r.ecosystem, r.name));
    var q := LibraryProperties.DependencyBehind(facts, edges, e);
    LibraryProperties.PayloadIsNulFree(facts, source);
    LibraryProperties.SameFingerprintSameRequirement(q, r);
  }

  /** The fingerprint the merged evidence for a key carries. */
  ghost predicate IsHidden(facts: seq<Fact<Hosts.HostsFact>>, key: Consumption.EdgeKey, hidden: set<string>) {
    var evidence := Consumption.EvidenceOf(Consumption.CandidatesIn(facts, key.source), key);
    evidence != [] && Consumption.MergeAll(evidence).fingerprint in hidden
  }

  /**
   * After a complete consumption run without overlap, a live row joins S to T over a kind exactly when a consumed
   * host of S names something only T declares and the fingerprint its merged evidence carries is not suppressed.
   */
  lemma ConsumptionRowsAreTheMatches(rows: seq<Relationship>, hidden: set<string>, organization: string,
                                     startedAt: int, calls: nat,
                                     facts: seq<Fact<Hosts.HostsFact>>, derived: DerivedSet, key: Consumption.EdgeKey)
    requires derived.complete == AllComplete(facts) && AllComplete(facts)
    requires Consumption.HoldsAgreement(derived.edges, facts)
    requires Applied(rows, hidden, organization, ConsumptionKey(organization), derived, startedAt, calls).1.Done?
    requires NoOverlap(rows, ConsumptionKey(organization), startedAt)
    requires key.source != "" && key.target != ""
    ensures (exists d :: d in LiveIdentities(Applied(rows, hidden, organization, ConsumptionKey(organization), derived, startedAt, calls).0,
                                             ConsumptionKey(organization))
                         && d.place == Place(organization, key.source, key.target, key.kind))
            <==> ConsumptionProperties.Consumes(facts, key.source, key.target, key.kind) && !IsHidden(facts, key, hidden)
  {
    Convergence(rows, hidden, organization, ConsumptionKey(organization), derived, startedAt, calls);
    ConsumptionProperties.ConsumptionEdgesExactly(facts, derived.edges, key);
    var wanted := WantedIdentities(derived.edges, hidden, organization);
    if d :| d in wanted && d.place == Place(organization, key.source, key.target, key.kind) {
      var e :| e in derived.edges && Wanted(e, hidden) && d == Identity(Place(organization, e.source, e.target, e.kind), e.fingerprint);
      assert Consumption.KeyOfDerived(e) == key;
      assert Consumption.HasAgreement(e, facts);
    }
    if ConsumptionProperties.Consumes(facts, key.source, key.target, key.kind) && !IsHidden(facts, key, hidden) {
      var e :| e in derived.edges && Consumption.KeyOfDerived(e) == key;
      assert Consumption.HasAgreement(e, facts) && Wanted(e, hidden);
      assert Identity(Place(organization, e.source, e.target, e.kind), e.fingerprint) in wanted;
    }
  }

  // ── the tables a reconciliation leaves ─────────────────────────────────────

  lemma ExecTwo(s: State, a: Event, b: Event)
    ensures RelationshipStore.Exec(s, [a, b]) == Step(Step(s, a), b)
  {
    OneMoreEvent(s, [], a);
    OneMoreEvent(s, [a], b);
    assert [] + [a] == [a] && [a] + [b] == [a, b];
  }

  /** Every earlier run of either key started more than a millisecond before this reconciliation. */
  ghost predicate SpacedFrom(history: seq<Event>, organization: string, startedAt: int) {
    Spaced(history, LibraryKey(organization), startedAt) && Spaced(history, ConsumptionKey(organization), startedAt)
  }

  /**
   * The table a successful reconciliation leaves, after any history: the live rows of the library key are exactly
   * the dependencies the packages facts state, minus the suppressed ones.
   */
  lemma ReconciledLibraries(history: seq<Event>, runs: seq<Event>, organization: string, inputs: Inputs,
                            startedAt: int, d: Identity)
    requires IsEdgePass(RelationshipStore.Exec(EMPTY, history), runs, organization, inputs, startedAt, true)
    requires SpacedFrom(history, organization, startedAt)
    requires AllComplete(inputs.packageFacts) && LibraryProperties.NulFreeRequirements(inputs.packageFacts)
    ensures var s := RelationshipStore.Exec(EMPTY, history);
            d in LiveIdentities(RelationshipStore.Exec(s, runs).rows, LibraryKey(organization))
            <==> IsDependency(inputs.packageFacts, Hidden(s.suppressed, organization, LibraryKey(organization)),
                              organization, d)
  {
    var s, key := RelationshipStore.Exec(EMPTY, history), LibraryKey(organization);
    var first := runs[0];
    assert runs == [first, runs[1]];
    ExecTwo(s, first, runs[1]);
    SpacedRunsDoNotOverlap(history, key, startedAt);
    FamiliesAreDisjoint(organization, organization);
    OtherKeysKeepLiveIdentities(Step(s, first), runs[1], key);
    LibraryRowsAreTheDependencies(s.rows, Hidden(s.suppressed, organization, key), organization, startedAt,
                                  inputs.packageCalls,
                                  inputs.packageFacts, first.derived, d);
  }

  /** A live consumption row joins the two ends over the kind. */
  ghost predicate Joined(rows: seq<Relationship>, organization: string, key: Consumption.EdgeKey) {
    exists d :: d in LiveIdentities(rows, ConsumptionKey(organization)) && d.place == Place(organization, key.source, key.target, key.kind)
  }

  /** The library run of a pass neither adds nor refreshes a row of the consumption key. */
  lemma LibraryRunKeepsQuiet(s: State, e: Event, key: string, startedAt: int)
    requires e.Run? && e.key != key && NoOverlap(s.rows, key, startedAt)
    ensures NoOverlap(Step(s, e).rows, key, startedAt)
  {
    var after := Step(s, e).rows;
    forall i | 0 <= i < |after| && InScope(after[i], AnyPlace, key)
      ensures after[i].mark.value.lastSeen < startedAt
    {
      RunRowComesFrom(s.rows, Hidden(s.suppressed, e.organization, e.key), e.organization, e.key, e.derived,
                      e.startedAt, e.calls, i);
    }
  }

  /**
   * The same table: a live consumption row joins S to T over a kind exactly when a consumed host of S names something
   * only T declares and the fingerprint of its merged evidence is not suppressed.
   */
  lemma ReconciledConsumption(history: seq<Event>, runs: seq<Event>, organization: string, inputs: Inputs,
                              startedAt: int, key: Consumption.EdgeKey)
    requires IsEdgePass(RelationshipStore.Exec(EMPTY, history), runs, organization, inputs, startedAt, true)
    requires SpacedFrom(history, organization, startedAt)
    requires AllComplete(inputs.hostFacts) && key.source != "" && key.target != ""
    ensures var s := RelationshipStore.Exec(EMPTY, history);
            Joined(RelationshipStore.Exec(s, runs).rows, organization, key)
            <==> && ConsumptionProperties.Consumes(inputs.hostFacts, key.source, key.target, key.kind)
                 && !IsHidden(inputs.hostFacts, key, Hidden(s.suppressed, organization, ConsumptionKey(organization)))
  {
    var s, second := RelationshipStore.Exec(EMPTY, history), runs[1];
    assert runs == [runs[0], second];
    ExecTwo(s, runs[0], second);
    SpacedRunsDoNotOverlap(history, ConsumptionKey(organization), startedAt);
    FamiliesAreDisjoint(organization, organization);
    LibraryRunKeepsQuiet(s, runs[0], ConsumptionKey(organization), startedAt);
    ConsumptionRowsAreTheMatches(Step(s, runs[0]).rows,
                                 Hidden(s.suppressed, organization, ConsumptionKey(organization)), organization, startedAt,
                                 inputs.hostCalls, inputs.hostFacts, second.derived, key);
  }

  // ── suppression, of nodes too ──────────────────────────────────────────────

  /**
   * A suppression recorded once hides the node from every later run of its organization: together with
   * `ApiRuns.SuppressedApiStaysGone` and `ResourceRuns.SuppressedClaimStaysGone`, what it removed never comes back.
   */
  lemma SuppressionReachesTheNodes(s: State, events: seq<Event>, x: Suppression, repository: string)
    requires x in s.suppressed
    ensures x.key == ApiKey(repository) ==>
              x.fingerprint in HiddenApis(RelationshipStore.Exec(s, events).suppressed, x.organization)(repository)
    ensures x.key == ResourceKeyFor(repository) ==>
              x.fingerprint in HiddenClaims(RelationshipStore.Exec(s, events).suppressed, x.organization)(repository)
  {
    SuppressionsStay(s, events);
  }

  // ── completeness, from the tree to the table ───────────────────────────────

  /** What extraction could not see: a listing cut short, too many files, or a file it failed to read or understand. */
  ghost predicate Unseen<M>(input: Extraction.Input<M>) {
    || input.truncated || |Extraction.Shortlist(input)| > input.ceiling
    || exists p :: p in Extraction.Shortlist(input) && !Extraction.Inspected(input, p)
  }

  /** The fact of the last sync to land, in the store these syncs leave; it could not see everything. */
  ghost predicate UnseenLastFact<M, D(!new)>(fact: Fact<D>, input: Extraction.Input<M>, store: Extraction.FactStore<D>,
                                             syncs: seq<Extraction.Sync<D>>, n: nat)
  {
    && FactRuns.LeftBehind(fact, store, syncs, n)
    && Unseen(input) && syncs[n].Verdict() == Extraction.Inspect(input, Extraction.Candidates(input))
  }

  /**
   * Whatever the last sync to land could not see leaves the store holding a fact that does not authorise retraction.
   */
  lemma UnseenFactIsIncomplete<M, D(!new)>(fact: Fact<D>, input: Extraction.Input<M>, store: Extraction.FactStore<D>,
                                           syncs: seq<Extraction.Sync<D>>, n: nat)
    requires UnseenLastFact(fact, input, store, syncs, n)
    ensures !Reading(fact).complete && fact.repository == syncs[n].repository
  {
    Extraction.CompleteExactly(input);
    FactRuns.StoredFactRetractsIff(fact, store, syncs, n);
  }

  /**
   * Anything the last sync of one repository could not see, anywhere in the organization, means a run of the edge
   * family that reads its stored fact retires no row at all, however the tables came to be.
   */
  lemma UnseenFileRetractsNoEdge<M, D(!new)>(input: Extraction.Input<M>, store: Extraction.FactStore<D>,
                                             syncs: seq<Extraction.Sync<D>>, n: nat,
                                             facts: seq<Fact<D>>, fact: Fact<D>, derived: DerivedSet,
                                             rows: seq<Relationship>, hidden: set<string>, organization: string,
                                             key: string, startedAt: int, calls: nat)
    requires UnseenLastFact(fact, input, store, syncs, n)
    requires fact in facts && derived.complete == AllComplete(facts)
    ensures var after := Applied(rows, hidden, organization, key, derived, startedAt, calls).0;
            |rows| <= |after| && forall i :: 0 <= i < |rows| && rows[i].live ==> after[i].live
  {
    UnseenFactIsIncomplete(fact, input, store, syncs, n);
    NoRetractionWithoutEvidence(rows, hidden, organization, key, derived, startedAt, calls);
  }

  /**
   * Anything the last sync of one repository could not see keeps that repository's own claims on resources; other
   * repositories still converge.
   */
  lemma UnseenFileKeepsItsClaims<M>(input: Extraction.Input<M>,
                                    store: Extraction.FactStore<seq<Collector.ResourceFinding>>,
                                    syncs: seq<Extraction.Sync<seq<Collector.ResourceFinding>>>, n: nat,
                                    t: Tables, organization: string, run: RunInput, startedAt: int, k: nat, l: nat)
    requires ResourceProperties.OneFactPerRepository(run.facts) && k < |run.facts|
    requires UnseenLastFact(run.facts[k], input, store, syncs, n)
    requires l < |t.links| && t.links[l].live && t.links[l].place.repository == run.facts[k].repository
    ensures var after := ReconciledRun(t, organization, run, startedAt); l < |after.links| && after.links[l].live
  {
    UnseenFactIsIncomplete(run.facts[k], input, store, syncs, n);
    ResourceProperties.IncompleteFactRetractsNothing(t, organization, run, startedAt, k, l);
  }

  /** The same keeps that repository's own APIs over the whole run. */
  lemma UnseenFileKeepsItsApis<M>(input: Extraction.Input<M>, store: Extraction.FactStore<seq<Spec>>,
                                  syncs: seq<Extraction.Sync<seq<Spec>>>, n: nat, rows: seq<Api>,
                                  run: ApiRuns.ApiRun, k: nat, i: nat)
    requires ApiRuns.OneFactPerRepository(run.facts) && k < |run.facts|
    requires UnseenLastFact(run.facts[k], input, store, syncs, n)
    requires i < |rows| && rows[i].live && rows[i].place.repository == run.facts[k].repository
    ensures var after := ApiRuns.AfterRun(rows, run); i < |after| && after[i].live && after[i].place == rows[i].place
  {
    UnseenFactIsIncomplete(run.facts[k], input, store, syncs, n);
    ApiRuns.IncompleteFactRetractsNothing(rows, run, k, i);
  }

  /** An organization's library run and consumption run never touch each other's rows, nor any other organization's. */
  lemma FamiliesAreDisjoint(a: string, b: string)
    ensures LibraryKey(a) != ConsumptionKey(b)
    ensures a != b ==> LibraryKey(a) != LibraryKey(b) && ConsumptionKey(a) != ConsumptionKey(b)
  {
    assert LibraryKey(a)[0] == 'l' && ConsumptionKey(b)[0] == 'a';
    assert LibraryKey(a)[14..] == a && LibraryKey(b)[14..] == b;
    assert ConsumptionKey(a)[18..] == a && ConsumptionKey(b)[18..] == b;
  }
}
