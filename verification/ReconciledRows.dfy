/** What the live rows of the table say that a successful reconciliation leaves, after any history. */
module ReconciledRows {
  import opened DerivedRows
  import opened Facts
  import opened Relationships
  import opened RelationshipStore
  import opened RelationshipRuns
  import opened RelationshipContent
  import opened Reconciler
  import Consumption
  import ConsumptionProperties
  import EdgeContent
  import Libraries
  import LibraryProperties

  /** A run leaves every row of another key as it was, and adds none. */
  lemma OtherKeyRowsAreOld(s: State, e: Event, i: nat)
    requires e.Run? && i < |Step(s, e).rows|
    requires Step(s, e).rows[i].mark.Some? && Step(s, e).rows[i].mark.value.key != e.key
    ensures i < |s.rows| && Step(s, e).rows[i] == s.rows[i]
  {
    hide Applied;
    var hidden := Hidden(s.suppressed, e.organization, e.key);
    RunRowComesFrom(s.rows, hidden, e.organization, e.key, e.derived, e.startedAt, e.calls, i);
    RunKeepsOtherRows(s.rows, hidden, e.organization, e.key, e.derived, e.startedAt, e.calls, i);
  }

  /** The live row states the requirement: a dependency its source declares in a manifest, which is certain. */
  predicate RowStates(row: Relationship, r: Libraries.RequiredPackage) {
    && row.place.kind == Library && row.content.origin == Manifest && row.content.confidence == 1.0
    && row.content.caption == (if r.rawName != "" then r.rawName else r.name) && row.content.description == ""
    && row.content.metadata == LibraryEvidence(Libraries.RuleForEcosystem(r.ecosystem), r.ecosystem, r.name,
                                               r.manifestPath,
                                               r.purl, r.version)
  }

  /** The live library row states the first requirement of its source for that package at that path. */
  ghost predicate RowStatesFirst(row: Relationship, facts: seq<Fact<Libraries.PackagesFact>>, organization: string,
                                 seenAt: int, k: nat)
  {
    && row.place.organization == organization && row.place.source in Payloads(facts)
    && EdgeContent.FirstToName(Payloads(facts)[row.place.source].required, k)
    && var r := Payloads(facts)[row.place.source].required[k];
    && RowStates(row, r) && row.mark.Some? && row.mark.value.lastSeen == seenAt
    && row.mark.value.fingerprint == Libraries.LibraryFingerprint(r)
    && LibraryProperties.Publishers(facts, (r.ecosystem, r.name)) == {row.place.target} && row.place.target != row.place.source
  }

  lemma SaidAndStated(row: Relationship, organization: string, key: string, facts: seq<Fact<Libraries.PackagesFact>>,
                      edges: seq<DerivedEdge>, e: DerivedEdge, seenAt: int)
    returns (k: nat)
    requires Libraries.HoldsSourceEdges(edges, Libraries.AllOwners(facts), Payloads(facts), Payloads(facts).Keys)
    requires e in edges && Says(row, organization, key, e, seenAt)
    ensures RowStatesFirst(row, facts, organization, seenAt, k)
  {
    hide Libraries.HoldsSourceEdges, Libraries.AllOwners, LibraryProperties.Publishers, EdgeContent.FirstToName;
    hide Libraries.LibraryFingerprint, Payloads;
    k := EdgeContent.LibraryEdgeSays(facts, edges, e);
  }

  /**
   * A live library row of the table a successful reconciliation leaves was observed by it, and says what the first
   * requirement of its source for that package at that path says; its target is the package's only publisher.
   */
  lemma LibraryRowsSay(history: seq<Event>, runs: seq<Event>, organization: string, inputs: Inputs, startedAt: int,
                       i: nat)
    returns (k: nat)
    requires IsEdgePass(RelationshipStore.Exec(EMPTY, history), runs, organization, inputs, startedAt, true)
    requires SpacedFrom(history, organization, startedAt) && AllComplete(inputs.packageFacts)
    requires var after := RelationshipStore.Exec(RelationshipStore.Exec(EMPTY, history), runs).rows;
             i < |after| && InScope(after[i], AnyPlace, LibraryKey(organization))
    ensures RowStatesFirst(RelationshipStore.Exec(RelationshipStore.Exec(EMPTY, history), runs).rows[i],
                           inputs.packageFacts,
                           organization, startedAt + ONE_MILLISECOND, k)
  {
    hide Applied, NoOverlap, Libraries.HoldsSourceEdges, SpacedFrom, RowStatesFirst, Says, LastOfItsRow;
    var s, key, first := RelationshipStore.Exec(EMPTY, history), LibraryKey(organization), runs[0];
    assert runs == [first, runs[1]];
    ExecTwo(s, first, runs[1]);
    FamiliesAreDisjoint(organization, organization);
    OtherKeyRowsAreOld(Step(s, first), runs[1], i);
    QuietBefore(history, organization, startedAt);
    IdentitiesAreUnique(EMPTY, history);
    var n := EveryLiveRowSaysItsLastEdge(s.rows, Hidden(s.suppressed, organization, key), organization, key,
                                         first.derived,
                                         startedAt, inputs.packageCalls, i);
    ReachesTheTable(first.derived.edges, Hidden(s.suppressed, organization, key), n);
    k := SaidAndStated(Step(s, first).rows[i], organization, key, inputs.packageFacts, first.derived.edges,
                       first.derived.edges[n], startedAt + ONE_MILLISECOND);
  }

  lemma ReachesTheTable(edges: seq<DerivedEdge>, hidden: set<string>, n: nat)
    requires LastOfItsRow(edges, hidden, n)
    ensures n < |edges| && edges[n] in edges
  {
  }

  lemma QuietBefore(history: seq<Event>, organization: string, startedAt: int)
    requires SpacedFrom(history, organization, startedAt)
    ensures NoOverlap(RelationshipStore.Exec(EMPTY, history).rows, LibraryKey(organization), startedAt)
    ensures NoOverlap(RelationshipStore.Exec(EMPTY, history).rows, ConsumptionKey(organization), startedAt)
  {
    hide NoOverlap;
    SpacedRunsDoNotOverlap(history, LibraryKey(organization), startedAt);
    SpacedRunsDoNotOverlap(history, ConsumptionKey(organization), startedAt);
  }

  /** The live row says what the merged evidence of its two ends and its kind says. */
  predicate RowMerges(row: Relationship, x: Consumption.Edge) {
    && row.content.caption == x.caption && row.content.description == "" && row.content.origin == Config
    && row.content.confidence == x.confidence
    && row.content.metadata == ConsumeEvidence(x.ruleId, x.matchedHost, x.evidencePath, x.envVar, x.tier,
                                               x.fromTestFile,
                                               x.alsoEvidence)
  }

  /**
   * A live consumption row of that table was observed by the reconciliation too, and says of the hosts behind it what
   * `EdgeContent.EdgeSays` spells out: strength, names, paths, test mark, rule, tier and fingerprint. Its confidence is
   * a declared host's exactly when one of its source's hosts names a service of the target outside `depends_on`.
   */
  lemma ConsumptionRowsSay(history: seq<Event>, runs: seq<Event>, organization: string, inputs: Inputs, startedAt: int,
                           i: nat)
    returns (x: Consumption.Edge, p: nat, m: nat)
    requires IsEdgePass(RelationshipStore.Exec(EMPTY, history), runs, organization, inputs, startedAt, true)
    requires SpacedFrom(history, organization, startedAt) && AllComplete(inputs.hostFacts)
    requires var after := RelationshipStore.Exec(RelationshipStore.Exec(EMPTY, history), runs).rows;
             i < |after| && InScope(after[i], AnyPlace, ConsumptionKey(organization))
    ensures var row := RelationshipStore.Exec(RelationshipStore.Exec(EMPTY, history), runs).rows[i];
            var facts, key := inputs.hostFacts, Consumption.EdgeKey(row.place.source, row.place.target, row.place.kind);
            && row.place.organization == organization && row.mark.value.lastSeen == startedAt + ONE_MILLISECOND
            && row.mark.value.fingerprint == x.fingerprint && RowMerges(row, x)
            && row.place.source in Payloads(facts)
            && EdgeContent.EdgeSays(x, facts, key,
                                    EdgeContent.Supporting(facts, key, Payloads(facts)[row.place.source].consumed), p, m)
            && row.content.confidence
               == if ConsumptionProperties.NamesService(facts, key.source, key.target, key.kind) then 0.85 else 0.75
  {
    hide Applied, NoOverlap, Consumption.HasAgreement, SpacedFrom, EdgeContent.EdgeSays, ConsumptionProperties.NamesService;
    var s, key, first, second := RelationshipStore.Exec(EMPTY, history), ConsumptionKey(organization), runs[0], runs[1];
    assert runs == [first, second];
    ExecTwo(s, first, second);
    FamiliesAreDisjoint(organization, organization);
    QuietBefore(history, organization, startedAt);
    LibraryRunKeepsQuiet(s, first, key, startedAt);
    IdentitiesAreUnique(EMPTY, history);
    StepKeepsUnique(s, first);
    var mid := Step(s, first);
    var n := EveryLiveRowSaysItsLastEdge(mid.rows, Hidden(s.suppressed, organization, key), organization, key,
                                         second.derived, startedAt, inputs.hostCalls, i);
    var e := second.derived.edges[n];
    assert Consumption.HasAgreement(e, inputs.hostFacts);
    ConsumptionProperties.ConfidenceExactly(inputs.hostFacts, e);
    x, p, m := EdgeContent.ConsumptionEdgeSays(inputs.hostFacts, e);
  }
}
