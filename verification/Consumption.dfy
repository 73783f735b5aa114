/**
 * Consumption edges: hostnames a repository's configuration names, looked up among the names its repositories
 * declare.
 */
module Consumption {
  import opened Wrappers
  import opened Claimants
  import opened Facts
  import opened Fingerprints
  import opened Hosts
  import opened Text
  import opened Relationships

  /** One consumption edge while evidence for it is being merged. */
  datatype Edge = Edge(source: string, target: string, kind: Kind, confidence: real, caption: string,
                       fingerprint: string,
                       ruleId: string, matchedHost: string, evidencePath: string, envVar: string, tier: string,
                       fromTestFile: bool, alsoEvidence: seq<string>)

  /** Evidence for the same source, target and kind is merged into one edge. */
  datatype EdgeKey = EdgeKey(source: string, target: string, kind: Kind)

  const BROKER_MARKERS := ["KAFKA", "AMQP", "RABBIT", "BROKER", "NATS", "SQS", "PUBSUB", "TOPIC", "QUEUE"]

  predicate IsBrokerHost(consumed: HostFinding) {
    exists i :: 0 <= i < |BROKER_MARKERS| && Contains(ToUpper(consumed.envVar), BROKER_MARKERS[i])
  }

  function KindOf(consumed: HostFinding): Kind {
    if IsBrokerHost(consumed) then Async else Http
  }

  function TierFor(ruleId: string): string {
    if ruleId == COMPOSE_DEPENDS_ON then "1"
    else if ruleId == K8S_SERVICE_HOST then "2a"
    else if ruleId == INGRESS_HOST then "2b"
    else "unknown"
  }

  function KeyOf(e: Edge): EdgeKey {
    EdgeKey(e.source, e.target, e.kind)
  }

  function AsDerived(e: Edge): DerivedEdge {
    DerivedEdge(e.source, e.target, e.kind, Config, e.confidence, e.caption, e.fingerprint,
                ConsumeEvidence(e.ruleId, e.matchedHost, e.evidencePath, e.envVar, e.tier, e.fromTestFile,
                                e.alsoEvidence))
  }

  // ── the index of declared names ────────────────────────────────────────────

  type Owners = map<string, set<string>>

  function OwnersOf(owners: Owners, name: string): set<string> {
    if Normal(name) in owners then owners[Normal(name)] else {}
  }

  /** The owners after a repository declares a name: blanks and placeholders are not names. */
  function WithDeclaration(owners: Owners, name: string, repository: string): Owners {
    if Normal(name) == "" || repository == "" || IsPlaceholderHost(Normal(name)) then owners
    else owners[Normal(name) := OwnersOf(owners, name) + {repository}]
  }

  class HostIndex {
    var owners: Owners

    constructor ()
      ensures owners == map[]
    {
      owners := map[];
    }

    method Add(name: string, repository: string)
      modifies this
      ensures owners == WithDeclaration(old(owners), name, repository)
    {
      var normal := Normal(name);
      if normal == "" || repository == "" || IsPlaceholderHost(normal) {
        return;
      }
      if normal !in owners {
        owners := owners[normal := {}];
      }
      owners := owners[normal := owners[normal] + {repository}];
    }

    method Resolve(name: string) returns (r: Resolution)
      ensures r == SoleOwner(OwnersOf(owners, name))
    {
      r := ResolveClaimants(OwnersOf(owners, name));
    }
  }

  ghost function WithDeclarations(owners: Owners, names: seq<string>, repository: string): Owners {
    if names == [] then owners
    else WithDeclaration(WithDeclarations(owners, names[..|names| - 1], repository), names[|names| - 1], repository)
  }

  ghost function ServiceOwners(facts: seq<Fact<HostsFact>>): Owners {
    if facts == [] then map[]
    else
      var last := facts[|facts| - 1];
      WithDeclarations(ServiceOwners(facts[..|facts| - 1]), last.data.declaredServices, last.repository)
  }

  ghost function IngressOwners(facts: seq<Fact<HostsFact>>): Owners {
    if facts == [] then map[]
    else
      var last := facts[|facts| - 1];
      WithDeclarations(IngressOwners(facts[..|facts| - 1]), last.data.declaredHosts, last.repository)
  }

  // ── matching one consumed host ─────────────────────────────────────────────

  datatype Matched = Matched(target: string, ruleId: string, confidence: real)

  /** Services by the host's first label, then public hosts by its whole name, the latter not for compose names. */
  ghost function Match(consumed: HostFinding, services: Owners, ingress: Owners): Option<Matched> {
    var alias := consumed.ruleId == COMPOSE_DEPENDS_ON;
    var service := SoleOwner(OwnersOf(services, ServiceLabel(consumed.host)));
    var public := SoleOwner(OwnersOf(ingress, consumed.host));
    if service.Owned? then
      Some(if alias then Matched(service.repository, COMPOSE_DEPENDS_ON, COMPOSE_TOPOLOGY)
           else Matched(service.repository, K8S_SERVICE_HOST, DECLARED_HOST))
    else if !alias && public.Owned? then Some(Matched(public.repository, INGRESS_HOST, COMPOSE_TOPOLOGY))
    else None
  }

  method MatchHost(consumed: HostFinding, services: HostIndex, ingress: HostIndex) returns (m: Option<Matched>)
    ensures m == Match(consumed, services.owners, ingress.owners)
  {
    var alias := consumed.ruleId == COMPOSE_DEPENDS_ON;
    var service := services.Resolve(ServiceLabel(consumed.host));
    if service.Owned? {
      if alias {
        return Some(Matched(service.repository, COMPOSE_DEPENDS_ON, COMPOSE_TOPOLOGY));
      }
      return Some(Matched(service.repository, K8S_SERVICE_HOST, DECLARED_HOST));
    }
    if !alias {
      var public := ingress.Resolve(consumed.host);
      if public.Owned? {
        return Some(Matched(public.repository, INGRESS_HOST, COMPOSE_TOPOLOGY));
      }
    }
    return None;
  }

  function EffectiveRule(ruleId: string, fromTestFile: bool): string {
    if fromTestFile then ruleId + ".test_file" else ruleId
  }

  function ConsumeFingerprint(rule: string, consumed: HostFinding, repository: string, target: string): string {
    Fingerprint([rule, consumed.host, consumed.evidencePath, repository, target])
  }

  function EdgeFor(repository: string, consumed: HostFinding, m: Matched): Edge {
    var rule := EffectiveRule(m.ruleId, consumed.fromTestFile);
    Edge(repository, m.target, KindOf(consumed), m.confidence, consumed.host,
         ConsumeFingerprint(rule, consumed, repository, m.target),
         rule, consumed.host, consumed.evidencePath, consumed.envVar, TierFor(m.ruleId), consumed.fromTestFile, [])
  }

  /** The evidence one repository contributes, in the order its hosts are listed; a match on itself is no edge. */
  ghost function Candidates(repository: string, consumed: seq<HostFinding>, services: Owners,
                            ingress: Owners): seq<Edge>
  {
    if consumed == [] then []
    else
      var before := Candidates(repository, consumed[..|consumed| - 1], services, ingress);
      var last := consumed[|consumed| - 1];
      var m := Match(last, services, ingress);
      if m.Some? && m.value.target != repository then before + [EdgeFor(repository, last, m.value)] else before
  }

  // ── merging evidence ───────────────────────────────────────────────────────

  /** Folds one more piece of evidence into an edge: the maximum confidence, never a sum. */
  function Merge(existing: Edge, edge: Edge): Edge {
    var stronger :=
      if edge.confidence > existing.confidence then
        existing.(confidence := edge.confidence, fingerprint := edge.fingerprint, ruleId := edge.ruleId, tier := edge.tier)
      else existing;
    var both := stronger.(alsoEvidence := AppendUnique(existing.alsoEvidence, edge.evidencePath));
    if both.fromTestFile && !edge.fromTestFile then
      both.(fromTestFile := false, evidencePath := edge.evidencePath, ruleId := edge.ruleId, tier := edge.tier,
            fingerprint := edge.fingerprint, envVar := edge.envVar)
    else both
  }

  function MergeAll(edges: seq<Edge>): Edge
    requires edges != []
  {
    if |edges| == 1 then edges[0] else Merge(MergeAll(edges[..|edges| - 1]), edges[|edges| - 1])
  }

  function MergedInto(agreement: map<EdgeKey, Edge>, edge: Edge): map<EdgeKey, Edge> {
    agreement[KeyOf(edge) := if KeyOf(edge) in agreement then Merge(agreement[KeyOf(edge)], edge) else edge]
  }

  /** The merged edges of an organization while its facts are being walked. */
  class Agreement {
    var edges: map<EdgeKey, Edge>

    constructor ()
      ensures edges == map[]
    {
      edges := map[];
    }

    method MergeConsumeEdge(edge: Edge)
      modifies this
      ensures edges == MergedInto(old(edges), edge)
    {
      var key := KeyOf(edge);
      if key !in edges {
        edges := edges[key := edge];
        return;
      }
      var existing := edges[key];
      var seen := existing.alsoEvidence;
      if edge.confidence > existing.confidence {
        existing := existing.(confidence := edge.confidence, fingerprint := edge.fingerprint);
        existing := existing.(ruleId := edge.ruleId, tier := edge.tier);
      }
      existing := existing.(alsoEvidence := AppendUnique(seen, edge.evidencePath));
      if existing.fromTestFile && !edge.fromTestFile {
        existing := existing.(fromTestFile := false, evidencePath := edge.evidencePath);
        existing := existing.(ruleId := edge.ruleId, tier := edge.tier);
        existing := existing.(fingerprint := edge.fingerprint, envVar := edge.envVar);
      }
      edges := edges[key := existing];
    }
  }

  // ── the deriver ────────────────────────────────────────────────────────────

  /** The pieces of evidence for one edge, in order. */
  ghost function EvidenceOf(candidates: seq<Edge>, key: EdgeKey): seq<Edge> {
    if candidates == [] then []
    else
      var before, last := EvidenceOf(candidates[..|candidates| - 1], key), candidates[|candidates| - 1];
      if KeyOf(last) == key then before + [last] else before
  }

  ghost function CandidatesIn(facts: seq<Fact<HostsFact>>, repository: string): seq<Edge> {
    if repository in Payloads(facts)
    then Candidates(repository, Payloads(facts)[repository].consumed, ServiceOwners(facts), IngressOwners(facts))
    else []
  }

  /**
   * Every key of the given sources with evidence maps to that evidence merged in order, and nothing else is present.
   */
  ghost predicate Agrees(agreement: map<EdgeKey, Edge>, facts: seq<Fact<HostsFact>>, sources: set<string>) {
    forall key: EdgeKey ::
      && (key in agreement <==> key.source in sources && EvidenceOf(CandidatesIn(facts, key.source), key) != [])
      && (key in agreement ==> EvidenceOf(CandidatesIn(facts, key.source), key) != []
                               && agreement[key] == MergeAll(EvidenceOf(CandidatesIn(facts, key.source), key)))
  }

  /** `edges` is the merged edge of every key that has evidence, each key once. */
  ghost predicate HoldsAgreement(edges: seq<DerivedEdge>, facts: seq<Fact<HostsFact>>) {
    && (forall e :: e in edges <==> HasAgreement(e, facts))
    && (forall i, j :: 0 <= i < j < |edges| ==> KeyOfDerived(edges[i]) != KeyOfDerived(edges[j]))
  }

  function KeyOfDerived(e: DerivedEdge): EdgeKey {
    EdgeKey(e.source, e.target, e.kind)
  }

  ghost predicate HasAgreement(e: DerivedEdge, facts: seq<Fact<HostsFact>>) {
    var evidence := EvidenceOf(CandidatesIn(facts, e.source), KeyOfDerived(e));
    evidence != [] && e == AsDerived(MergeAll(evidence))
  }

  lemma {:induction false} CandidatesComeFromSource(repository: string, consumed: seq<HostFinding>, services: Owners,
                                                    ingress: Owners)
    ensures forall e :: e in Candidates(repository, consumed, services, ingress) ==> e.source == repository && e.target != repository && e.alsoEvidence == []
  {
    if consumed != [] {
      CandidatesComeFromSource(repository, consumed[..|consumed| - 1], services, ingress);
    }
  }

  lemma {:induction false} EvidenceHasItsKey(candidates: seq<Edge>, key: EdgeKey)
    ensures forall e :: e in EvidenceOf(candidates, key) <==> e in candidates && KeyOf(e) == key
  {
    if candidates != [] {
      var front, last := candidates[..|candidates| - 1], candidates[|candidates| - 1];
      EvidenceHasItsKey(front, key);
      assert candidates == front + [last];
    }
  }

  lemma {:induction false} MergeKeepsKey(edges: seq<Edge>, key: EdgeKey)
    requires edges != [] && forall e :: e in edges ==> KeyOf(e) == key
    ensures KeyOf(MergeAll(edges)) == key
  {
    if |edges| > 1 {
      assert forall e :: e in edges[..|edges| - 1] ==> e in edges;
      MergeKeepsKey(edges[..|edges| - 1], key);
    } else {
      assert edges[0] in edges;
    }
  }

  function MergedMany(agreement: map<EdgeKey, Edge>, edges: seq<Edge>): map<EdgeKey, Edge> {
    if edges == [] then agreement else MergedInto(MergedMany(agreement, edges[..|edges| - 1]), edges[|edges| - 1])
  }

  /** Merging a new source's candidates adds, under each of its keys, that key's evidence merged in order. */
  lemma {:induction false} MergedManyExactly(agreement: map<EdgeKey, Edge>, edges: seq<Edge>, repository: string,
                                             key: EdgeKey)
    requires forall e :: e in edges ==> e.source == repository
    requires forall k :: k in agreement ==> k.source != repository
    ensures var r := MergedMany(agreement, edges);
            if EvidenceOf(edges, key) != [] then key in r && r[key] == MergeAll(EvidenceOf(edges, key))
            else (key in r <==> key in agreement) && (key in r ==> r[key] == agreement[key])
  {
    if edges != [] {
      var front, last := edges[..|edges| - 1], edges[|edges| - 1];
      assert last in edges;
      assert forall e :: e in front ==> e in edges;
      MergedManyExactly(agreement, front, repository, key);
      var before := EvidenceOf(front, key);
      if KeyOf(last) == key && before != [] {
        assert (before + [last])[..|before|] == before;
      }
    }
  }

  method ReadFacts(facts: seq<Fact<HostsFact>>)
    returns (services: HostIndex, ingress: HostIndex, payloads: map<string, HostsFact>, complete: bool, reasons: seq<string>)
    ensures services.owners == ServiceOwners(facts) && ingress.owners == IngressOwners(facts) && payloads == Payloads(facts)
    ensures complete == AllComplete(facts) && reasons == Reasons(facts)
  {
    services := new HostIndex();
    ingress := new HostIndex();
    payloads, complete, reasons := map[], true, [];
    ghost var seen: seq<Fact<HostsFact>> := [];
    for i := 0 to |facts|
      invariant fresh(services) && fresh(ingress) && services != ingress && seen == facts[..i]
      invariant services.owners == ServiceOwners(seen) && ingress.owners == IngressOwners(seen)
      invariant payloads == Payloads(seen)
      invariant complete == AllComplete(seen) && reasons == Reasons(seen)
    {
      OneMoreFact(seen, facts[i]);
      OwnersGrow(seen, facts[i]);
      PrefixGrows(facts, i);
      if !Reading(facts[i]).complete {
        complete := false;
        reasons := CollectReasons(reasons, Reading(facts[i]).reasons);
      }
      payloads := payloads[facts[i].repository := facts[i].data];
      AddDeclarations(services, facts[i].data.declaredServices, facts[i].repository);
      AddDeclarations(ingress, facts[i].data.declaredHosts, facts[i].repository);
      seen := seen + [facts[i]];
    }
    WholePrefix(facts);
  }

  lemma OwnersGrow(facts: seq<Fact<HostsFact>>, fact: Fact<HostsFact>)
    ensures ServiceOwners(facts + [fact]) == WithDeclarations(ServiceOwners(facts), fact.data.declaredServices,
                                                              fact.repository)
    ensures IngressOwners(facts + [fact]) == WithDeclarations(IngressOwners(facts), fact.data.declaredHosts,
                                                              fact.repository)
  {
    assert (facts + [fact])[..|facts|] == facts;
  }

  method AddDeclarations(index: HostIndex, names: seq<string>, repository: string)
    modifies index
    ensures index.owners == WithDeclarations(old(index.owners), names, repository)
  {
    for i := 0 to |names|
      invariant index.owners == WithDeclarations(old(index.owners), names[..i], repository)
    {
      index.Add(names[i], repository);
      assert names[..i + 1][..i] == names[..i];
    }
    assert names[..|names|] == names;
  }

  /** Folds one repository's consumed hosts into the agreement. */
  method MergeSource(agreement: Agreement, repository: string, consumed: seq<HostFinding>, services: HostIndex,
                     ingress: HostIndex)
    modifies agreement
    ensures agreement.edges == MergedMany(old(agreement.edges),
                                          Candidates(repository, consumed, services.owners, ingress.owners))
  {
    for i := 0 to |consumed|
      invariant agreement.edges == MergedMany(old(agreement.edges),
                                              Candidates(repository, consumed[..i], services.owners, ingress.owners))
    {
      assert consumed[..i + 1][..i] == consumed[..i];
      ghost var before := Candidates(repository, consumed[..i], services.owners, ingress.owners);
      var m := MatchHost(consumed[i], services, ingress);
      if m.Some? && m.value.target != repository {
        var edge := EdgeFor(repository, consumed[i], m.value);
        agreement.MergeConsumeEdge(edge);
        assert (before + [edge])[..|before|] == before;
      }
    }
    assert consumed[..|consumed|] == consumed;
  }

  /** Merges the evidence of every repository, in whatever order the payload map is walked. */
  method MergeSources(ghost facts: seq<Fact<HostsFact>>, payloads: map<string, HostsFact>, services: HostIndex,
                      ingress: HostIndex)
    returns (agreement: Agreement)
    requires services.owners == ServiceOwners(facts) && ingress.owners == IngressOwners(facts) && payloads == Payloads(facts)
    ensures Agrees(agreement.edges, facts, payloads.Keys)
  {
    hide Agrees, Payloads, ServiceOwners, IngressOwners;
    agreement := new Agreement();
    NothingAgrees(facts);
    var remaining := payloads.Keys;
    ghost var done: set<string> := {};
    while remaining != {}
      invariant fresh(agreement)
      invariant done + remaining == payloads.Keys && done !! remaining
      invariant Agrees(agreement.edges, facts, done)
      decreases |remaining|
    {
      var repository :| repository in remaining;
      MergeNext(facts, done, agreement, repository, payloads[repository].consumed, services, ingress);
      remaining, done := remaining - {repository}, done + {repository};
    }
    assert done == payloads.Keys;
  }

  lemma NothingAgrees(facts: seq<Fact<HostsFact>>)
    ensures Agrees(map[], facts, {})
  {
  }

  method MergeNext(ghost facts: seq<Fact<HostsFact>>, ghost done: set<string>, agreement: Agreement, repository: string,
                   consumed: seq<HostFinding>, services: HostIndex, ingress: HostIndex)
    requires services.owners == ServiceOwners(facts) && ingress.owners == IngressOwners(facts)
    requires repository in Payloads(facts) && consumed == Payloads(facts)[repository].consumed && repository !in done
    requires Agrees(agreement.edges, facts, done)
    modifies agreement
    ensures Agrees(agreement.edges, facts, done + {repository})
  {
    AgreesWithOneMore(agreement.edges, facts, done, repository);
    MergeSource(agreement, repository, consumed, services, ingress);
  }

  /** Derives every consumption edge of an organization from its facts. */
  method Derive(facts: seq<Fact<HostsFact>>) returns (derived: DerivedSet)
    ensures derived.complete == AllComplete(facts) && derived.reasons == Reasons(facts)
    ensures HoldsAgreement(derived.edges, facts)
  {
    var services, ingress, payloads, complete, reasons := ReadFacts(facts);
    var agreement := MergeSources(facts, payloads, services, ingress);
    AgreementIsKeyed(agreement.edges, facts);
    var edges := ListAgreement(agreement.edges);
    ListedAgreement(edges, agreement.edges, facts);
    derived := DerivedSet(edges, complete, reasons);
  }

  lemma AgreesWithOneMore(agreement: map<EdgeKey, Edge>, facts: seq<Fact<HostsFact>>, sources: set<string>,
                          repository: string)
    requires Agrees(agreement, facts, sources) && repository in Payloads(facts) && repository !in sources
    ensures Agrees(MergedMany(agreement, CandidatesIn(facts, repository)), facts, sources + {repository})
  {
    hide MergeAll, MergedMany, EvidenceOf, ServiceOwners, IngressOwners, Payloads;
    var candidates := CandidatesIn(facts, repository);
    CandidatesComeFromSource(repository, Payloads(facts)[repository].consumed, ServiceOwners(facts),
                             IngressOwners(facts));
    forall key: EdgeKey
      ensures var evidence := EvidenceOf(candidates, key);
              var r := MergedMany(agreement, candidates);
              && (if evidence != [] then key in r && r[key] == MergeAll(evidence)
                  else (key in r <==> key in agreement) && (key in r ==> r[key] == agreement[key]))
              && (key.source != repository ==> evidence == [])
    {
      MergedManyExactly(agreement, candidates, repository, key);
      EvidenceHasItsKey(candidates, key);
      var evidence := EvidenceOf(candidates, key);
      if evidence != [] {
        assert evidence[0] in evidence;
      }
    }
  }

  /** `edges` is the agreement's edge for each of these keys, each key once. */
  ghost predicate ListsKeys(edges: seq<DerivedEdge>, agreement: map<EdgeKey, Edge>, keys: set<EdgeKey>) {
    && (forall e :: e in edges <==> IsListed(e, agreement, keys))
    && (forall i, j :: 0 <= i < j < |edges| ==> KeyOfDerived(edges[i]) != KeyOfDerived(edges[j]))
  }

  predicate IsListed(e: DerivedEdge, agreement: map<EdgeKey, Edge>, keys: set<EdgeKey>) {
    KeyOfDerived(e) in keys && KeyOfDerived(e) in agreement && e == AsDerived(agreement[KeyOfDerived(e)])
  }

  method ListAgreement(agreement: map<EdgeKey, Edge>) returns (edges: seq<DerivedEdge>)
    requires forall key :: key in agreement ==> KeyOf(agreement[key]) == key
    ensures ListsKeys(edges, agreement, agreement.Keys)
  {
    hide ListsKeys, AsDerived;
    NothingListed(agreement);
    var remaining := agreement.Keys;
    ghost var done: set<EdgeKey> := {};
    edges := [];
    while remaining != {}
      invariant done + remaining == agreement.Keys && done !! remaining
      invariant ListsKeys(edges, agreement, done)
      decreases |remaining|
    {
      var key :| key in remaining;
      OneMoreListed(edges, agreement, done, key);
      remaining, done := remaining - {key}, done + {key};
      edges := edges + [AsDerived(agreement[key])];
    }
    assert done == agreement.Keys;
  }

  lemma NothingListed(agreement: map<EdgeKey, Edge>)
    ensures ListsKeys([], agreement, {})
  {
  }

  lemma OneMoreListed(edges: seq<DerivedEdge>, agreement: map<EdgeKey, Edge>, keys: set<EdgeKey>, key: EdgeKey)
    requires ListsKeys(edges, agreement, keys) && key in agreement && key !in keys && KeyOf(agreement[key]) == key
    ensures ListsKeys(edges + [AsDerived(agreement[key])], agreement, keys + {key})
  {
    var edge := AsDerived(agreement[key]);
    assert KeyOfDerived(edge) == key;
    hide AsDerived;
    assert forall i :: 0 <= i < |edges| ==> edges[i] in edges;
  }

  lemma AgreementIsKeyed(agreement: map<EdgeKey, Edge>, facts: seq<Fact<HostsFact>>)
    requires Agrees(agreement, facts, Payloads(facts).Keys)
    ensures forall key :: key in agreement ==> KeyOf(agreement[key]) == key
  {
    forall key | key in agreement
      ensures KeyOf(agreement[key]) == key
    {
      EvidenceHasItsKey(CandidatesIn(facts, key.source), key);
      MergeKeepsKey(EvidenceOf(CandidatesIn(facts, key.source), key), key);
    }
  }

  lemma ListedAgreement(edges: seq<DerivedEdge>, agreement: map<EdgeKey, Edge>, facts: seq<Fact<HostsFact>>)
    requires Agrees(agreement, facts, Payloads(facts).Keys) && ListsKeys(edges, agreement, agreement.Keys)
    ensures HoldsAgreement(edges, facts)
  {
    forall e
      ensures e in edges <==> HasAgreement(e, facts)
    {
      var key := KeyOfDerived(e);
      assert e in edges <==> IsListed(e, agreement, agreement.Keys);
      assert key in agreement <==> key.source in Payloads(facts).Keys && EvidenceOf(CandidatesIn(facts, key.source), key) != [];
    }
  }
}
