/** What the derived consumption edges say, measured against a brute-force reading of the facts. */
module ConsumptionProperties {
  import opened Wrappers
  import opened Claimants
  import opened Facts
  import opened Fingerprints
  import opened Hosts
  import opened Relationships
  import opened Text
  import opened Consumption
  import opened ConsumptionMerge

  /** The repository declares the name, among Services or among public hosts. */
  ghost predicate Declares(names: seq<string>, repository: string, name: string) {
    exists n :: n in names && Normal(n) == Normal(name) && Normal(n) != "" && repository != "" && !IsPlaceholderHost(Normal(n))
  }

  ghost function ServiceDeclarers(facts: seq<Fact<HostsFact>>, name: string): set<string> {
    set f | f in facts && Declares(f.data.declaredServices, f.repository, name) :: f.repository
  }

  ghost function HostDeclarers(facts: seq<Fact<HostsFact>>, name: string): set<string> {
    set f | f in facts && Declares(f.data.declaredHosts, f.repository, name) :: f.repository
  }

  lemma {:induction false} DeclarationsAdded(owners: Owners, names: seq<string>, repository: string, name: string)
    ensures OwnersOf(WithDeclarations(owners, names, repository), name)
            == OwnersOf(owners, name) + if Declares(names, repository, name) then {repository} else {}
  {
    if names != [] {
      var front, last := names[..|names| - 1], names[|names| - 1];
      DeclarationsAdded(owners, front, repository, name);
      assert names == front + [last];
      assert Declares(names, repository, name) <==>
             Declares(front, repository, name)
             || (Normal(last) == Normal(name) && Normal(last) != "" && repository != "" && !IsPlaceholderHost(Normal(last)));
    }
  }

  lemma DeclarersGrow(facts: seq<Fact<HostsFact>>, fact: Fact<HostsFact>, name: string)
    ensures ServiceDeclarers(facts + [fact], name)
            == ServiceDeclarers(facts, name) + if Declares(fact.data.declaredServices, fact.repository, name) then {fact.repository} else {}
    ensures HostDeclarers(facts + [fact], name)
            == HostDeclarers(facts, name) + if Declares(fact.data.declaredHosts, fact.repository, name) then {fact.repository} else {}
  {
    hide Declares;
    assert forall f :: f in facts + [fact] <==> f in facts || f == fact;
  }

  lemma {:induction false} IndexesHoldTheDeclarers(facts: seq<Fact<HostsFact>>, name: string)
    ensures OwnersOf(ServiceOwners(facts), name) == ServiceDeclarers(facts, name)
    ensures OwnersOf(IngressOwners(facts), name) == HostDeclarers(facts, name)
  {
    if facts != [] {
      hide Declares, ServiceDeclarers, HostDeclarers, OwnersOf, ServiceOwners, IngressOwners, WithDeclarations;
      var front, last := facts[..|facts| - 1], facts[|facts| - 1];
      IndexesHoldTheDeclarers(front, name);
      DeclarationsAdded(ServiceOwners(front), last.data.declaredServices, last.repository, name);
      DeclarationsAdded(IngressOwners(front), last.data.declaredHosts, last.repository, name);
      SplitLast(facts);
      OwnersGrow(front, last);
      DeclarersGrow(front, last, name);
    }
  }

  /**
   * The consumed host names something only `target` declares: its first label is a Service of that repository
   * alone, or no single repository declares that Service, the host is no compose alias, and it is a public host
   * of that repository alone.
   */
  ghost predicate NamesOnly(facts: seq<Fact<HostsFact>>, consumed: HostFinding, target: string) {
    var services := ServiceDeclarers(facts, ServiceLabel(consumed.host));
    || services == {target}
    || (|services| != 1 && consumed.ruleId != COMPOSE_DEPENDS_ON && HostDeclarers(facts, consumed.host) == {target})
  }

  lemma MatchNamesTheOnlyDeclarer(facts: seq<Fact<HostsFact>>, consumed: HostFinding, target: string)
    ensures var m := Match(consumed, ServiceOwners(facts), IngressOwners(facts));
            m.Some? && m.value.target == target <==> NamesOnly(facts, consumed, target)
  {
    hide ServiceLabel, ServiceDeclarers, HostDeclarers, ServiceOwners, IngressOwners, OwnersOf;
    var services, hosts := ServiceDeclarers(facts, ServiceLabel(consumed.host)), HostDeclarers(facts, consumed.host);
    IndexesHoldTheDeclarers(facts, ServiceLabel(consumed.host));
    IndexesHoldTheDeclarers(facts, consumed.host);
    ResolveOwned(services, target);
    ResolveOwned(hosts, target);
    assert services == {target} ==> |services| == 1;
  }

  lemma {:induction false} CandidatesExactly(repository: string, consumed: seq<HostFinding>, services: Owners,
                                             ingress: Owners)
    ensures forall e :: e in Candidates(repository, consumed, services, ingress) <==>
                          exists c :: c in consumed && IsEvidence(e, repository, c, services, ingress)
  {
    if consumed != [] {
      var front, last := consumed[..|consumed| - 1], consumed[|consumed| - 1];
      CandidatesExactly(repository, front, services, ingress);
      assert consumed == front + [last];
      forall e
        ensures e in Candidates(repository, consumed, services, ingress) <==>
                exists c :: c in consumed && IsEvidence(e, repository, c, services, ingress)
      {
        assert e in Candidates(repository, consumed, services, ingress) <==>
               e in Candidates(repository, front, services, ingress) || IsEvidence(e, repository, last, services, ingress);
      }
    }
  }

  ghost predicate IsEvidence(e: Edge, repository: string, c: HostFinding, services: Owners, ingress: Owners) {
    var m := Match(c, services, ingress);
    m.Some? && m.value.target != repository && e == EdgeFor(repository, c, m.value)
  }

  /** Some consumed host of `source` names something only `target` declares, over this kind of connection. */
  ghost predicate Consumes(facts: seq<Fact<HostsFact>>, source: string, target: string, kind: Kind) {
    && source in Payloads(facts) && target != source
    && exists c :: c in Payloads(facts)[source].consumed && KindOf(c) == kind && NamesOnly(facts, c, target)
  }

  /** The evidence for a key is what its source's hosts contribute under it. */
  lemma EvidenceExactly(facts: seq<Fact<HostsFact>>, key: EdgeKey)
    ensures EvidenceOf(CandidatesIn(facts, key.source), key) != []
            <==> Consumes(facts, key.source, key.target, key.kind)
  {
    hide Match, NamesOnly, KindOf, ServiceOwners, IngressOwners, Payloads, Candidates, EffectiveRule, ConsumeFingerprint, TierFor;
    if key.source in Payloads(facts) {
      var services, ingress := ServiceOwners(facts), IngressOwners(facts);
      var consumed := Payloads(facts)[key.source].consumed;
      var evidence := EvidenceOf(Candidates(key.source, consumed, services, ingress), key);
      EvidenceHasItsKey(Candidates(key.source, consumed, services, ingress), key);
      CandidatesExactly(key.source, consumed, services, ingress);
      if evidence != [] {
        var x := evidence[0];
        assert x in evidence;
        var c :| c in consumed && IsEvidence(x, key.source, c, services, ingress);
        MatchNamesTheOnlyDeclarer(facts, c, key.target);
        assert KindOf(c) == key.kind;
      }
      if c :| key.target != key.source && c in consumed && KindOf(c) == key.kind && NamesOnly(facts, c, key.target) {
        MatchNamesTheOnlyDeclarer(facts, c, key.target);
        var x := EdgeFor(key.source, c, Match(c, services, ingress).value);
        assert IsEvidence(x, key.source, c, services, ingress);
        assert x in evidence;
      }
    }
  }

  /**
   * An edge (S, T, kind) is derived if and only if a consumed host of S names something only T declares, T not being
   * S.
   */
  lemma ConsumptionEdgesExactly(facts: seq<Fact<HostsFact>>, edges: seq<DerivedEdge>, key: EdgeKey)
    requires HoldsAgreement(edges, facts)
    ensures (exists e :: e in edges && KeyOfDerived(e) == key) <==> Consumes(facts, key.source, key.target, key.kind)
  {
    EvidenceExactly(facts, key);
    var evidence := EvidenceOf(CandidatesIn(facts, key.source), key);
    if e :| e in edges && KeyOfDerived(e) == key {
      assert HasAgreement(e, facts);
    }
    if evidence != [] {
      EvidenceHasItsKey(CandidatesIn(facts, key.source), key);
      MergeKeepsKey(evidence, key);
      var e := AsDerived(MergeAll(evidence));
      assert HasAgreement(e, facts);
      assert e in edges && KeyOfDerived(e) == key;
    }
  }

  /** Some host of `source` names, other than through a compose alias, a service only `target` declares. */
  ghost predicate NamesService(facts: seq<Fact<HostsFact>>, source: string, target: string, kind: Kind) {
    && source in Payloads(facts)
    && exists c :: c in Payloads(facts)[source].consumed && KindOf(c) == kind
                   && c.ruleId != COMPOSE_DEPENDS_ON && ServiceDeclarers(facts, ServiceLabel(c.host)) == {target}
  }

  lemma MatchConfidence(facts: seq<Fact<HostsFact>>, c: HostFinding, target: string)
    requires NamesOnly(facts, c, target)
    ensures var m := Match(c, ServiceOwners(facts), IngressOwners(facts));
            m.Some? && m.value.confidence == if c.ruleId != COMPOSE_DEPENDS_ON && ServiceDeclarers(facts, ServiceLabel(c.host)) == {target}
                                             then DECLARED_HOST else COMPOSE_TOPOLOGY
  {
    MatchNamesTheOnlyDeclarer(facts, c, target);
    IndexesHoldTheDeclarers(facts, ServiceLabel(c.host));
    ResolveOwned(ServiceDeclarers(facts, ServiceLabel(c.host)), target);
  }

  /** Each piece of evidence carries one of the two confidences, the greater only when it names a service. */
  lemma EvidenceConfidence(facts: seq<Fact<HostsFact>>, key: EdgeKey, x: Edge)
    requires x in EvidenceOf(CandidatesIn(facts, key.source), key)
    ensures x.confidence == DECLARED_HOST || x.confidence == COMPOSE_TOPOLOGY
    ensures x.confidence == DECLARED_HOST ==> NamesService(facts, key.source, key.target, key.kind)
  {
    var candidates, services, ingress := CandidatesIn(facts, key.source), ServiceOwners(facts), IngressOwners(facts);
    EvidenceHasItsKey(candidates, key);
    CandidatesExactly(key.source, Payloads(facts)[key.source].consumed, services, ingress);
    var c :| c in Payloads(facts)[key.source].consumed && IsEvidence(x, key.source, c, services, ingress);
    MatchNamesTheOnlyDeclarer(facts, c, key.target);
    MatchConfidence(facts, c, key.target);
  }

  /** A host that names a service is evidence of the greater confidence. */
  lemma ServiceIsStrongEvidence(facts: seq<Fact<HostsFact>>, key: EdgeKey, c: HostFinding) returns (x: Edge)
    requires key.source in Payloads(facts) && key.source != key.target
    requires c in Payloads(facts)[key.source].consumed && KindOf(c) == key.kind
    requires c.ruleId != COMPOSE_DEPENDS_ON && ServiceDeclarers(facts, ServiceLabel(c.host)) == {key.target}
    ensures x in EvidenceOf(CandidatesIn(facts, key.source), key) && x.confidence == DECLARED_HOST
  {
    var services, ingress := ServiceOwners(facts), IngressOwners(facts);
    MatchNamesTheOnlyDeclarer(facts, c, key.target);
    MatchConfidence(facts, c, key.target);
    x := EdgeFor(key.source, c, Match(c, services, ingress).value);
    assert IsEvidence(x, key.source, c, services, ingress) && KeyOf(x) == key;
    CandidatesExactly(key.source, Payloads(facts)[key.source].consumed, services, ingress);
    assert x in CandidatesIn(facts, key.source);
    EvidenceHasItsKey(CandidatesIn(facts, key.source), key);
  }

  /** A merged edge has the confidence of some piece of its evidence, and of none a greater one. */
  lemma MergedConfidence(evidence: seq<Edge>) returns (strongest: Edge)
    requires evidence != []
    ensures strongest in evidence && MergeAll(evidence).confidence == strongest.confidence
    ensures forall x :: x in evidence ==> x.confidence <= strongest.confidence
  {
    MergeFields(evidence);
    strongest := evidence[FirstMaximum(evidence)];
  }

  /**
   * The confidence of an edge is never a sum of its evidence: it is that of a declared host when some evidence
   * names a service of the target outside a compose file, and that of a topology hint otherwise.
   */
  lemma ConfidenceExactly(facts: seq<Fact<HostsFact>>, e: DerivedEdge)
    requires HasAgreement(e, facts)
    ensures e.confidence == if NamesService(facts, e.source, e.target, e.kind) then DECLARED_HOST else COMPOSE_TOPOLOGY
  {
    var key := KeyOfDerived(e);
    var strongest := MergedConfidence(EvidenceOf(CandidatesIn(facts, e.source), key));
    EvidenceConfidence(facts, key, strongest);
    if NamesService(facts, e.source, e.target, e.kind) {
      var c :| c in Payloads(facts)[e.source].consumed && KindOf(c) == e.kind
               && c.ruleId != COMPOSE_DEPENDS_ON && ServiceDeclarers(facts, ServiceLabel(c.host)) == {e.target};
      EvidenceExactly(facts, key);
      var x := ServiceIsStrongEvidence(facts, key, c);
    }
  }

  // ── whose rule an edge carries ─────────────────────────────────────────────

  const TEST_FILE := ".test_file"

  /** The host is evidence for the edge. */
  ghost predicate Supports(facts: seq<Fact<HostsFact>>, key: EdgeKey, c: HostFinding) {
    key.source != key.target && KindOf(c) == key.kind && NamesOnly(facts, c, key.target)
  }

  /** The host is evidence of the greater confidence: outside `depends_on`, it names a service of the target. */
  ghost predicate NamesItsService(facts: seq<Fact<HostsFact>>, key: EdgeKey, c: HostFinding) {
    Supports(facts, key, c) && c.ruleId != COMPOSE_DEPENDS_ON && ServiceDeclarers(facts, ServiceLabel(c.host)) == {key.target}
  }

  /** The first host to name the target's service stands in a test file, and a production host is listed before it. */
  ghost predicate TestNamesItFirst(facts: seq<Fact<HostsFact>>, key: EdgeKey, hosts: seq<HostFinding>) {
    exists i, j :: 0 <= i < j < |hosts| && Supports(facts, key, hosts[i]) && !hosts[i].fromTestFile
                   && hosts[j].fromTestFile && FirstToNameIt(facts, key, hosts, j)
  }

  ghost predicate FirstToNameIt(facts: seq<Fact<HostsFact>>, key: EdgeKey, hosts: seq<HostFinding>, j: nat)
    requires j < |hosts|
  {
    NamesItsService(facts, key, hosts[j]) && forall k :: 0 <= k < j ==> !NamesItsService(facts, key, hosts[k])
  }

  ghost predicate OnlyTests(facts: seq<Fact<HostsFact>>, key: EdgeKey, hosts: seq<HostFinding>) {
    forall c :: c in hosts && Supports(facts, key, c) ==> c.fromTestFile
  }

  ghost predicate SomeNamesIt(facts: seq<Fact<HostsFact>>, key: EdgeKey, hosts: seq<HostFinding>) {
    exists c :: c in hosts && NamesItsService(facts, key, c)
  }

  lemma OneMoreHost(facts: seq<Fact<HostsFact>>, key: EdgeKey, hosts: seq<HostFinding>, c: HostFinding)
    ensures OnlyTests(facts, key, hosts + [c])
            <==> OnlyTests(facts, key, hosts) && (Supports(facts, key, c) ==> c.fromTestFile)
    ensures SomeNamesIt(facts, key, hosts + [c]) <==> SomeNamesIt(facts, key, hosts) || NamesItsService(facts, key, c)
    ensures TestNamesItFirst(facts, key, hosts + [c])
            <==> || TestNamesItFirst(facts, key, hosts)
                 || (&& NamesItsService(facts, key, c) && c.fromTestFile
                     && !OnlyTests(facts, key, hosts) && !SomeNamesIt(facts, key, hosts))
  {
    hide Supports, NamesItsService;
    var all := hosts + [c];
    assert forall d :: d in all <==> d in hosts || d == c;
    if i, j :| 0 <= i < j < |hosts| && Supports(facts, key, hosts[i]) && !hosts[i].fromTestFile
               && hosts[j].fromTestFile && FirstToNameIt(facts, key, hosts, j) {
      assert all[i] == hosts[i] && all[j] == hosts[j] && FirstToNameIt(facts, key, all, j);
    }
    if i, j :| 0 <= i < j < |all| && Supports(facts, key, all[i]) && !all[i].fromTestFile
               && all[j].fromTestFile && FirstToNameIt(facts, key, all, j) {
      assert forall k :: 0 <= k < |hosts| ==> all[k] == hosts[k];
      if j < |hosts| {
        assert FirstToNameIt(facts, key, hosts, j);
      }
    }
    if NamesItsService(facts, key, c) && c.fromTestFile && !OnlyTests(facts, key, hosts) && !SomeNamesIt(facts, key, hosts) {
      var d :| d in hosts && Supports(facts, key, d) && !d.fromTestFile;
      var i :| 0 <= i < |hosts| && hosts[i] == d;
      assert forall k :: 0 <= k < |hosts| ==> all[k] == hosts[k] && hosts[k] in hosts;
      assert all[i] == d && all[|hosts|] == c && FirstToNameIt(facts, key, all, |hosts|);
    }
  }

  /** The evidence reads as the hosts behind it do. */
  ghost predicate Mirrors(evidence: seq<Edge>, facts: seq<Fact<HostsFact>>, key: EdgeKey, hosts: seq<HostFinding>) {
    && (AllTest(evidence) <==> OnlyTests(facts, key, hosts))
    && (SomeStrong(evidence) <==> SomeNamesIt(facts, key, hosts))
    && (StrongTestAfterProduction(evidence) <==> TestNamesItFirst(facts, key, hosts))
    && (forall x :: x in evidence ==> WellRuled(x))
  }

  predicate WellRuled(x: Edge) {
    && (HasSuffix(x.ruleId, TEST_FILE) <==> x.fromTestFile)
    && (x.confidence == DECLARED_HOST || x.confidence == COMPOSE_TOPOLOGY)
  }

  ghost predicate SomeStrong(evidence: seq<Edge>) {
    exists x :: x in evidence && x.confidence == DECLARED_HOST
  }

  ghost predicate StrongTestAfterProduction(evidence: seq<Edge>) {
    exists i, j :: 0 <= i < j < |evidence| && !evidence[i].fromTestFile && evidence[j].fromTestFile && FirstStrong(evidence, j)
  }

  ghost predicate FirstStrong(evidence: seq<Edge>, j: nat)
    requires j < |evidence|
  {
    evidence[j].confidence == DECLARED_HOST && forall k :: 0 <= k < j ==> evidence[k].confidence != DECLARED_HOST
  }

  lemma OneMorePiece(evidence: seq<Edge>, x: Edge)
    ensures AllTest(evidence + [x]) <==> AllTest(evidence) && x.fromTestFile
    ensures SomeStrong(evidence + [x]) <==> SomeStrong(evidence) || x.confidence == DECLARED_HOST
    ensures StrongTestAfterProduction(evidence + [x])
            <==> || StrongTestAfterProduction(evidence)
                 || (x.confidence == DECLARED_HOST && x.fromTestFile && !AllTest(evidence) && !SomeStrong(evidence))
  {
    var all := evidence + [x];
    assert forall y :: y in all <==> y in evidence || y == x;
    assert forall k :: 0 <= k < |evidence| ==> all[k] == evidence[k] && evidence[k] in evidence;
    assert all[|evidence|] == x;
    if i, j :| 0 <= i < j < |evidence| && !evidence[i].fromTestFile && evidence[j].fromTestFile && FirstStrong(evidence, j) {
      assert FirstStrong(all, j);
    }
    if i, j :| 0 <= i < j < |all| && !all[i].fromTestFile && all[j].fromTestFile && FirstStrong(all, j) {
      if j < |evidence| {
        assert FirstStrong(evidence, j);
      }
    }
    if x.confidence == DECLARED_HOST && x.fromTestFile && !AllTest(evidence) && !SomeStrong(evidence) {
      var i :| 0 <= i < |evidence| && !evidence[i].fromTestFile;
      assert FirstStrong(all, |evidence|);
    }
  }

  lemma SuffixEnds(s: string, suffix: string)
    requires s != "" && suffix != ""
    ensures HasSuffix(s, suffix) ==> s[|s| - 1] == suffix[|suffix| - 1]
  {
    if HasSuffix(s, suffix) {
      var tail := s[|s| - |suffix|..];
      assert tail[|suffix| - 1] == suffix[|suffix| - 1];
    }
  }

  lemma RuleTellsTest(ruleId: string, fromTestFile: bool)
    requires ruleId == COMPOSE_DEPENDS_ON || ruleId == K8S_SERVICE_HOST || ruleId == INGRESS_HOST
    ensures HasSuffix(EffectiveRule(ruleId, fromTestFile), TEST_FILE) <==> fromTestFile
  {
    var rule := EffectiveRule(ruleId, fromTestFile);
    if fromTestFile {
      assert rule[|rule| - |TEST_FILE|..] == TEST_FILE;
    } else {
      assert rule[|rule| - 1] != 'e' && TEST_FILE[|TEST_FILE| - 1] == 'e';
      SuffixEnds(rule, TEST_FILE);
    }
  }

  /** What one host contributes: a piece of evidence exactly when it supports the edge. */
  lemma PieceOf(facts: seq<Fact<HostsFact>>, key: EdgeKey, c: HostFinding)
    ensures var m := Match(c, ServiceOwners(facts), IngressOwners(facts));
            && (Supports(facts, key, c) <==> m.Some? && m.value.target != key.source && KeyOf(EdgeFor(key.source, c, m.value)) == key)
            && (Supports(facts, key, c) ==>
                  var x := EdgeFor(key.source, c, m.value);
                  && WellRuled(x) && x.fromTestFile == c.fromTestFile
                  && (x.confidence == DECLARED_HOST <==> NamesItsService(facts, key, c)))
  {
    var m := Match(c, ServiceOwners(facts), IngressOwners(facts));
    MatchNamesTheOnlyDeclarer(facts, c, key.target);
    if Supports(facts, key, c) {
      MatchConfidence(facts, c, key.target);
      RuleTellsTest(m.value.ruleId, c.fromTestFile);
    }
  }

  lemma {:induction false} EvidenceMirrorsHosts(facts: seq<Fact<HostsFact>>, key: EdgeKey, hosts: seq<HostFinding>)
    ensures Mirrors(EvidenceOf(Candidates(key.source, hosts, ServiceOwners(facts), IngressOwners(facts)), key), facts,
                    key, hosts)
  {
    if hosts != [] {
      var services, ingress := ServiceOwners(facts), IngressOwners(facts);
      var front, last := hosts[..|hosts| - 1], hosts[|hosts| - 1];
      var before := Candidates(key.source, front, services, ingress);
      EvidenceMirrorsHosts(facts, key, front);
      SplitLast(hosts);
      PieceOf(facts, key, last);
      MirrorsOneMore(EvidenceOf(before, key), facts, key, front, last);
      var m := Match(last, services, ingress);
      if m.Some? && m.value.target != key.source {
        EvidenceOneMore(before, EdgeFor(key.source, last, m.value), key);
      }
    }
  }

  lemma EvidenceOneMore(candidates: seq<Edge>, x: Edge, key: EdgeKey)
    ensures EvidenceOf(candidates + [x], key) == if KeyOf(x) == key then EvidenceOf(candidates, key) + [x] else EvidenceOf(candidates, key)
  {
    assert (candidates + [x])[..|candidates|] == candidates;
  }

  lemma MirrorsOneMore(evidence: seq<Edge>, facts: seq<Fact<HostsFact>>, key: EdgeKey, hosts: seq<HostFinding>,
                       c: HostFinding)
    requires Mirrors(evidence, facts, key, hosts)
    ensures !Supports(facts, key, c) ==> Mirrors(evidence, facts, key, hosts + [c])
    ensures forall x :: Supports(facts, key, c) && WellRuled(x) && x.fromTestFile == c.fromTestFile
                        && (x.confidence == DECLARED_HOST <==> NamesItsService(facts, key, c))
                        ==> Mirrors(evidence + [x], facts, key, hosts + [c])
  {
    hide OnlyTests, SomeNamesIt, TestNamesItFirst, AllTest, SomeStrong, StrongTestAfterProduction, WellRuled;
    OneMoreHost(facts, key, hosts, c);
    forall x | Supports(facts, key, c) && WellRuled(x) && x.fromTestFile == c.fromTestFile
               && (x.confidence == DECLARED_HOST <==> NamesItsService(facts, key, c))
      ensures Mirrors(evidence + [x], facts, key, hosts + [c])
    {
      OneMorePiece(evidence, x);
    }
  }

  /** With only two confidences, the first of the greatest is the first strong one. */
  lemma TakenOverIsStrong(evidence: seq<Edge>)
    requires forall x :: x in evidence ==> WellRuled(x)
    ensures TakenOver(evidence) <==> StrongTestAfterProduction(evidence)
  {
    hide HasSuffix;
    assert forall k :: 0 <= k < |evidence| ==> evidence[k] in evidence;
    if i, j :| 0 <= i < j < |evidence| && !evidence[i].fromTestFile && evidence[j].fromTestFile && FirstGreatest(evidence, j) {
      assert evidence[i].confidence < evidence[j].confidence;
      assert FirstStrong(evidence, j);
    }
    if i, j :| 0 <= i < j < |evidence| && !evidence[i].fromTestFile && evidence[j].fromTestFile && FirstStrong(evidence, j) {
      assert FirstGreatest(evidence, j);
    }
  }

  /**
   * "Production evidence outranks test evidence": a derived edge reads as production exactly when some production
   * host supports it, but its rule — and with it its tier and fingerprint — is still a test file's exactly when
   * the first host to name the target's service stands in a test file and a production host is listed before it.
   */
  lemma ProductionOwnsIdentityIff(facts: seq<Fact<HostsFact>>, e: DerivedEdge)
    requires HasAgreement(e, facts)
    ensures e.source in Payloads(facts) && e.metadata.ConsumeEvidence?
    ensures var hosts := Payloads(facts)[e.source].consumed;
            && (e.metadata.fromTestFile <==> OnlyTests(facts, KeyOfDerived(e), hosts))
            && (HasSuffix(e.metadata.ruleId, TEST_FILE)
                <==> OnlyTests(facts, KeyOfDerived(e), hosts) || TestNamesItFirst(facts, KeyOfDerived(e), hosts))
    ensures var x := OwningEvidence(facts, e); e.metadata.ruleId == x.ruleId && e.fingerprint == x.fingerprint
  {
    var key := KeyOfDerived(e);
    var evidence := EvidenceOf(CandidatesIn(facts, e.source), key);
    assert evidence != [] && e.source in Payloads(facts);
    EvidenceMirrorsHosts(facts, key, Payloads(facts)[e.source].consumed);
    TakenOverIsStrong(evidence);
    var x := IdentityIsTestIff(evidence);
  }

  // One repository whose compose file depends on a service and whose test environment names it by URL.

  const BY_COMPOSE := HostFinding("api", "", "compose.yml", COMPOSE_DEPENDS_ON, COMPOSE_TOPOLOGY, false)

  const BY_TEST := HostFinding("api", "API_URL", "compose.test.yml", K8S_SERVICE_HOST, DECLARED_HOST, true)

  function HostsOf(repository: string, data: HostsFact): Fact<HostsFact> {
    Fact("org", repository, data, true, COMPLETE, "sha", true, 1, 0)
  }

  const CONSUMER := HostsOf("web", HostsFact([], [], [BY_COMPOSE, BY_TEST]))

  const PROVIDER := HostsOf("backend", HostsFact(["api"], [], []))

  lemma ApiIsItsOwnLabel()
    ensures Normal("api") == "api" && ServiceLabel("api") == "api" && !IsPlaceholderHost("api")
  {
    hide Normal, ServiceLabel, IsPlaceholderHost;
    ApiIsNormal();
    LabelOfBareName("api");
    ApiIsNoPlaceholder();
  }

  lemma ApiIsNormal()
    ensures Normal("api") == "api"
  {
    assert TrimSpace("api") == "api";
  }

  lemma ApiIsNoPlaceholder()
    requires Normal("api") == "api"
    ensures !IsPlaceholderHost("api")
  {
    hide Normal;
    assert "api"[0] == 'a' && "api"[1] == 'p' && "api"[2] == 'i';
  }

  lemma LabelOfBareName(name: string)
    requires Normal(name) == name && ':' !in name && '.' !in name
    ensures ServiceLabel(name) == name
  {
    hide Normal;
    assert IndexOf(name, ':') == |name| && IndexOf(name, '.') == |name|;
  }

  lemma {:induction false} PartsComeFromTheWhole(s: string, part: string, c: char)
    requires Contains(s, part) && c in part
    ensures c in s
  {
    if !HasPrefix(s, part) {
      PartsComeFromTheWhole(s[1..], part, c);
    }
  }

  /** A letter of each broker marker that the variable's name lacks. */
  const STRANGE := ['K', 'M', 'B', 'B', 'N', 'Q', 'B', 'T', 'Q']

  lemma StrangeLetters()
    ensures |STRANGE| == |BROKER_MARKERS|
    ensures forall i :: 0 <= i < |STRANGE| ==> STRANGE[i] in BROKER_MARKERS[i] && STRANGE[i] !in "API_URL"
  {
    assert "KAFKA"[0] == 'K' && "AMQP"[1] == 'M' && "RABBIT"[2] == 'B' && "BROKER"[0] == 'B' && "NATS"[0] == 'N';
    assert "SQS"[1] == 'Q' && "PUBSUB"[2] == 'B' && "TOPIC"[0] == 'T' && "QUEUE"[0] == 'Q';
  }

  lemma UpperCaseAlready()
    ensures ToUpper("API_URL") == "API_URL" && ToUpper("") == ""
  {
  }

  lemma NoBroker(c: HostFinding)
    requires c.envVar == "" || c.envVar == "API_URL"
    ensures KindOf(c) == Http
  {
    hide Contains, ToUpper;
    UpperCaseAlready();
    StrangeLetters();
    if i :| 0 <= i < |BROKER_MARKERS| && Contains(ToUpper(c.envVar), BROKER_MARKERS[i]) {
      PartsComeFromTheWhole(ToUpper(c.envVar), BROKER_MARKERS[i], STRANGE[i]);
    }
  }

  lemma OnlyTheProviderDeclares()
    ensures ServiceDeclarers([CONSUMER, PROVIDER], "api") == {"backend"}
  {
    OnlyItsOwnName();
    hide Declares;
    var facts := [CONSUMER, PROVIDER];
    assert CONSUMER in facts && PROVIDER in facts;
  }

  lemma OnlyItsOwnName()
    ensures Declares(PROVIDER.data.declaredServices, PROVIDER.repository, "api")
    ensures !Declares(CONSUMER.data.declaredServices, CONSUMER.repository, "api") && PROVIDER.repository == "backend"
  {
    hide IsPlaceholderHost, Normal;
    ApiIsItsOwnLabel();
    assert "api" in PROVIDER.data.declaredServices;
  }

  const WEB_TO_BACKEND := EdgeKey("web", "backend", Http)

  lemma BothSupport()
    ensures var facts := [CONSUMER, PROVIDER];
            && Supports(facts, WEB_TO_BACKEND, BY_COMPOSE) && !BY_COMPOSE.fromTestFile
            && NamesItsService(facts, WEB_TO_BACKEND, BY_TEST) && BY_TEST.fromTestFile
            && !NamesItsService(facts, WEB_TO_BACKEND, BY_COMPOSE)
  {
    hide KindOf, ServiceDeclarers, HostDeclarers, ServiceLabel;
    ApiIsItsOwnLabel();
    OnlyTheProviderDeclares();
    NoBroker(BY_COMPOSE);
    NoBroker(BY_TEST);
    assert "web"[0] != "backend"[0] && COMPOSE_DEPENDS_ON[8] != K8S_SERVICE_HOST[8];
  }

  lemma TestComesSecond(facts: seq<Fact<HostsFact>>, key: EdgeKey, first: HostFinding, second: HostFinding)
    requires Supports(facts, key, first) && !first.fromTestFile && !NamesItsService(facts, key, first)
    requires NamesItsService(facts, key, second) && second.fromTestFile
    ensures TestNamesItFirst(facts, key, [first, second]) && !OnlyTests(facts, key, [first, second])
  {
    hide Supports, NamesItsService;
    var hosts := [first, second];
    assert hosts[0] == first && hosts[1] == second && first in hosts;
    assert FirstToNameIt(facts, key, hosts, 1);
  }

  lemma ReadsFrom(hosts: seq<HostFinding>)
    requires hosts == [BY_COMPOSE, BY_TEST]
    ensures var facts := [CONSUMER, PROVIDER]; "web" in Payloads(facts) && Payloads(facts)["web"].consumed == hosts
  {
    OneMoreFact([CONSUMER], PROVIDER);
    OneMoreFact([], CONSUMER);
    assert [] + [CONSUMER] == [CONSUMER] && [CONSUMER] + [PROVIDER] == [CONSUMER, PROVIDER];
    assert "web"[0] != "backend"[0];
  }

  /** The edge reads as production evidence and carries the rule of the test file. */
  lemma TestFileNamesTheEdge(edges: seq<DerivedEdge>) returns (e: DerivedEdge)
    requires HoldsAgreement(edges, [CONSUMER, PROVIDER])
    ensures e in edges && e.source == "web" && e.target == "backend" && e.metadata.ConsumeEvidence?
    ensures !e.metadata.fromTestFile && HasSuffix(e.metadata.ruleId, TEST_FILE)
  {
    var facts, hosts := [CONSUMER, PROVIDER], [BY_COMPOSE, BY_TEST];
    e := EdgeWithHosts(facts, edges, WEB_TO_BACKEND, hosts, BY_COMPOSE) by {
      BothSupport();
      ReadsFrom(hosts);
    }
    TestComesSecond(facts, WEB_TO_BACKEND, BY_COMPOSE, BY_TEST) by {
      BothSupport();
    }
  }

  lemma EdgeWithHosts(facts: seq<Fact<HostsFact>>, edges: seq<DerivedEdge>, key: EdgeKey, hosts: seq<HostFinding>,
                      c: HostFinding)
    returns (e: DerivedEdge)
    requires HoldsAgreement(edges, facts) && key.source in Payloads(facts) && Payloads(facts)[key.source].consumed == hosts
    requires c in hosts && Supports(facts, key, c)
    ensures e in edges && KeyOfDerived(e) == key && e.metadata.ConsumeEvidence?
    ensures e.metadata.fromTestFile <==> OnlyTests(facts, key, hosts)
    ensures HasSuffix(e.metadata.ruleId, TEST_FILE)
            <==> OnlyTests(facts, key, hosts) || TestNamesItFirst(facts, key, hosts)
  {
    hide OnlyTests, TestNamesItFirst, HasSuffix, NamesOnly, HasAgreement;
    assert Consumes(facts, key.source, key.target, key.kind);
    ConsumptionEdgesExactly(facts, edges, key);
    e :| e in edges && KeyOfDerived(e) == key;
    ProductionOwnsIdentityIff(facts, e);
  }

  /** Two walks over the same facts, in whatever orders, derive the same edges with the same metadata, each once. */
  lemma ConsumptionIsOrderIndependent(facts: seq<Fact<HostsFact>>, a: seq<DerivedEdge>, b: seq<DerivedEdge>)
    requires HoldsAgreement(a, facts) && HoldsAgreement(b, facts)
    ensures multiset(a) == multiset(b)
  {
    forall e
      ensures multiset(a)[e] == multiset(b)[e]
    {
      assert e in a <==> e in b;
      OccursOnce(a, e);
      OccursOnce(b, e);
    }
  }

  lemma {:induction false} OccursOnce(edges: seq<DerivedEdge>, e: DerivedEdge)
    requires forall i, j :: 0 <= i < j < |edges| ==> KeyOfDerived(edges[i]) != KeyOfDerived(edges[j])
    ensures multiset(edges)[e] == if e in edges then 1 else 0
  {
    if edges != [] {
      OccursOnce(edges[1..], e);
      assert edges == [edges[0]] + edges[1..];
      if edges[0] == e {
        assert e !in edges[1..];
      }
    }
  }

  ghost predicate NulFreeHosts(facts: seq<Fact<HostsFact>>) {
    forall r :: r in Payloads(facts) ==>
                  NulFree(r) && forall c :: c in Payloads(facts)[r].consumed ==> NulFree(c.host) && NulFree(c.evidencePath)
  }

  lemma RulesAreNulFree(ruleId: string, fromTestFile: bool)
    requires ruleId == COMPOSE_DEPENDS_ON || ruleId == K8S_SERVICE_HOST || ruleId == INGRESS_HOST
    ensures NulFree(EffectiveRule(ruleId, fromTestFile))
  {
    assert NulFree(COMPOSE_DEPENDS_ON) && NulFree(K8S_SERVICE_HOST) && NulFree(INGRESS_HOST) && NulFree(".test_file");
  }

  lemma DeclarersAreRepositories(facts: seq<Fact<HostsFact>>, c: HostFinding, target: string)
    requires NamesOnly(facts, c, target)
    ensures target in Payloads(facts)
  {
    assert target in ServiceDeclarers(facts, ServiceLabel(c.host)) || target in HostDeclarers(facts, c.host);
    var f :| f in facts && f.repository == target;
    var i :| 0 <= i < |facts| && facts[i] == f;
    assert facts[i].repository == target;
  }

  /** The facts a fingerprint names: rule, host, path, source and target, and not the kind. */
  function FingerprintParts(x: Edge): seq<string> {
    [x.ruleId, x.matchedHost, x.evidencePath, x.source, x.target]
  }

  predicate NulFreeParts(x: Edge) {
    NulFree(x.ruleId) && NulFree(x.matchedHost) && NulFree(x.evidencePath) && NulFree(x.source) && NulFree(x.target)
  }

  lemma EvidenceFingerprint(facts: seq<Fact<HostsFact>>, x: Edge, source: string)
    requires x in CandidatesIn(facts, source) && NulFreeHosts(facts)
    ensures x.source == source && x.fingerprint == Fingerprint(FingerprintParts(x)) && NulFreeParts(x)
  {
    CandidatesExactly(source, Payloads(facts)[source].consumed, ServiceOwners(facts), IngressOwners(facts));
    var c :| c in Payloads(facts)[source].consumed && IsEvidence(x, source, c, ServiceOwners(facts),
                                                                 IngressOwners(facts));
    RulesAreNulFree(Match(c, ServiceOwners(facts), IngressOwners(facts)).value.ruleId, c.fromTestFile);
    MatchNamesTheOnlyDeclarer(facts, c, x.target);
    DeclarersAreRepositories(facts, c, x.target);
  }

  /** The piece of evidence a merged edge takes its fingerprint from. */
  ghost function OwningEvidence(facts: seq<Fact<HostsFact>>, e: DerivedEdge): Edge
    requires HasAgreement(e, facts)
  {
    var evidence := EvidenceOf(CandidatesIn(facts, e.source), KeyOfDerived(e));
    evidence[Owner(evidence)]
  }

  lemma FingerprintNamesItsEvidence(facts: seq<Fact<HostsFact>>, e: DerivedEdge)
    requires HasAgreement(e, facts) && NulFreeHosts(facts)
    ensures var x := OwningEvidence(facts, e);
            e.fingerprint == Fingerprint(FingerprintParts(x)) && NulFreeParts(x) && x.source == e.source && x.target == e.target
  {
    var candidates := CandidatesIn(facts, e.source);
    var evidence := EvidenceOf(candidates, KeyOfDerived(e));
    EvidenceHasItsKey(candidates, KeyOfDerived(e));
    MergeFields(evidence);
    assert evidence[Owner(evidence)] in evidence;
    EvidenceFingerprint(facts, evidence[Owner(evidence)], e.source);
  }

  lemma PartsAreNamed(x: Edge, y: Edge)
    requires NulFreeParts(x) && NulFreeParts(y)
    ensures Fingerprint(FingerprintParts(x)) == Fingerprint(FingerprintParts(y))
            <==> FingerprintParts(x) == FingerprintParts(y)
  {
    if Fingerprint(FingerprintParts(x)) == Fingerprint(FingerprintParts(y)) {
      FingerprintIsInjective(FingerprintParts(x), FingerprintParts(y));
    }
  }

  /**
   * Two consumption edges share a fingerprint exactly when they share source and target and the evidence their
   * identities come from has the same rule, host and path; and then, unless they are the same edge, their kinds differ.
   */
  lemma ConsumptionCollisions(facts: seq<Fact<HostsFact>>, edges: seq<DerivedEdge>, i: nat, j: nat)
    requires HoldsAgreement(edges, facts) && NulFreeHosts(facts)
    requires i < |edges| && j < |edges|
    ensures HasAgreement(edges[i], facts) && HasAgreement(edges[j], facts)
    ensures var x, y := OwningEvidence(facts, edges[i]), OwningEvidence(facts, edges[j]);
            edges[i].fingerprint == edges[j].fingerprint
            <==> && edges[i].source == edges[j].source && edges[i].target == edges[j].target
                 && x.ruleId == y.ruleId && x.matchedHost == y.matchedHost && x.evidencePath == y.evidencePath
    ensures edges[i].fingerprint == edges[j].fingerprint && i != j ==> edges[i].kind != edges[j].kind
  {
    assert edges[i] in edges && edges[j] in edges;
    var x, y := OwningEvidence(facts, edges[i]), OwningEvidence(facts, edges[j]);
    FingerprintNamesItsEvidence(facts, edges[i]);
    FingerprintNamesItsEvidence(facts, edges[j]);
    PartsAreNamed(x, y);
    var p, q := FingerprintParts(x), FingerprintParts(y);
    assert p == q <==> p[0] == q[0] && p[1] == q[1] && p[2] == q[2] && p[3] == q[3] && p[4] == q[4];
    if i != j {
      assert KeyOfDerived(edges[i]) != KeyOfDerived(edges[j]);
    }
  }
}
