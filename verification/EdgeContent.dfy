/** What each derived edge says, read off the facts alone. */
module EdgeContent {
  import opened Wrappers
  import opened Claimants
  import opened Facts
  import opened Fingerprints
  import opened Relationships
  import opened Hosts
  import opened HostNames
  import opened Text
  import opened TextProperties
  import Libraries
  import LibraryProperties
  import opened Consumption
  import opened ConsumptionMerge
  import opened ConsumptionProperties

  // ── library edges ──────────────────────────────────────────────────────────

  /** The edge states the dependency as the requirement declares it: a manifest is certain. */
  predicate StatesRequirement(e: DerivedEdge, r: Libraries.RequiredPackage) {
    && e.kind == Library && e.origin == Manifest && e.confidence == 1.0
    && e.caption == (if r.rawName != "" then r.rawName else r.name)
    && e.metadata.LibraryEvidence?
    && e.metadata.ecosystem == r.ecosystem && e.metadata.packageName == r.name && e.metadata.manifestPath == r.manifestPath
    && e.metadata.purl == r.purl && e.metadata.version == r.version
    && e.metadata.ruleId == Libraries.RuleForEcosystem(r.ecosystem)
  }

  predicate SamePackageAndPath(a: Libraries.RequiredPackage, b: Libraries.RequiredPackage) {
    a.ecosystem == b.ecosystem && a.name == b.name && a.manifestPath == b.manifestPath
  }

  /** The `k`-th requirement is the first to name its package at its path. */
  ghost predicate FirstToName(required: seq<Libraries.RequiredPackage>, k: nat) {
    k < |required| && forall j :: 0 <= j < k ==> !SamePackageAndPath(required[j], required[k])
  }

  /** Every ecosystem the rules know has a rule of its own, and all the others share one. */
  lemma RulesTellEcosystems(a: string, b: string)
    ensures Libraries.RuleForEcosystem(a) == Libraries.RuleForEcosystem(b)
            <==> a == b || (!Known(a) && !Known(b))
  {
    RuleEnds(a);
    RuleEnds(b);
  }

  predicate Known(ecosystem: string) {
    ecosystem in ["go", "npm", "maven", "python", "cargo", "nuget"]
  }

  /** The rule's sixth and seventh letters after the prefix tell which it is. */
  lemma RuleEnds(a: string)
    ensures var rule := Libraries.RuleForEcosystem(a);
            && |rule| > 9
            && (a == "go" <==> rule[7] == 'g') && (a == "npm" <==> rule[7] == 'n' && rule[8] == 'p')
            && (a == "maven" <==> rule[7] == 'm') && (a == "python" <==> rule[7] == 'p')
            && (a == "cargo" <==> rule[7] == 'c') && (a == "nuget" <==> rule[7] == 'n' && rule[8] == 'u')
            && (!Known(a) <==> rule == "libdep.unknown")
  {
    var rule := Libraries.RuleForEcosystem(a);
    assert "libdep.unknown"[7] == 'u';
  }

  lemma EarlierIsEmitted(owners: Libraries.Owners, repository: string, required: seq<Libraries.RequiredPackage>, j: nat,
                         target: string)
    requires j < |required| && Libraries.Internal(owners, repository, required[j], target)
    ensures Libraries.Emits(Libraries.SourceEdges(owners, repository, required),
                            Libraries.LibraryFingerprint(required[j]))
  {
    LibraryProperties.SourceEdgesExactly(owners, repository, required);
    assert required[j] in required;
  }

  /** A repository's edge states the first requirement that names its package at its path. */
  lemma {:induction false} SourceEdgeStatesTheFirst(owners: Libraries.Owners, repository: string,
                                                    required: seq<Libraries.RequiredPackage>, e: DerivedEdge)
    returns (k: nat)
    requires e in Libraries.SourceEdges(owners, repository, required)
    ensures k < |required| && e == Libraries.LibraryEdge(repository, e.target, required[k])
    ensures forall j :: 0 <= j < k ==> !SamePackageAndPath(required[j], required[k])
  {
    var front, last := required[..|required| - 1], required[|required| - 1];
    var before := Libraries.SourceEdges(owners, repository, front);
    if e in before {
      k := SourceEdgeStatesTheFirst(owners, repository, front, e);
      assert forall j :: 0 <= j <= k ==> required[j] == front[j];
    } else {
      k := |required| - 1;
      forall j | 0 <= j < k
        ensures !SamePackageAndPath(required[j], required[k])
      {
        if SamePackageAndPath(front[j], last) {
          ResolveOwned(Libraries.OwnersOf(owners, (last.ecosystem, last.name)), e.target);
          EarlierIsEmitted(owners, repository, front, j, e.target);
        }
      }
    }
  }

  /** A derived library edge states the first requirement of its source for that package at that path. */
  lemma LibraryEdgeSays(facts: seq<Fact<Libraries.PackagesFact>>, edges: seq<DerivedEdge>, e: DerivedEdge)
    returns (k: nat)
    requires Libraries.HoldsSourceEdges(edges, Libraries.AllOwners(facts), Payloads(facts), Payloads(facts).Keys)
    requires e in edges
    ensures e.source in Payloads(facts) && FirstToName(Payloads(facts)[e.source].required, k)
    ensures StatesRequirement(e, Payloads(facts)[e.source].required[k])
    ensures e.fingerprint == Libraries.LibraryFingerprint(Payloads(facts)[e.source].required[k])
    ensures LibraryProperties.Publishers(facts, (e.metadata.ecosystem, e.metadata.packageName)) == {e.target} && e.target != e.source
  {
    assert Libraries.EdgeOfSource(e, Libraries.AllOwners(facts), Payloads(facts));
    var required := Payloads(facts)[e.source].required;
    k := SourceEdgeStatesTheFirst(Libraries.AllOwners(facts), e.source, required, e);
    LibraryProperties.SourceEdgesExactly(Libraries.AllOwners(facts), e.source, required);
    assert LibraryProperties.Justified(e, Libraries.AllOwners(facts), e.source, required);
    LibraryProperties.IndexHoldsThePublishers(facts, (required[k].ecosystem, required[k].name));
  }

  // ── consumption edges ──────────────────────────────────────────────────────

  /** The host's label is a service that only the target declares. */
  ghost predicate ByService(facts: seq<Fact<HostsFact>>, key: EdgeKey, c: HostFinding) {
    ServiceDeclarers(facts, ServiceLabel(c.host)) == {key.target}
  }

  /** The rule under which the host is evidence. */
  ghost function RuleOf(facts: seq<Fact<HostsFact>>, key: EdgeKey, c: HostFinding): string {
    (if !ByService(facts, key, c) then "consume.ingress_host"
     else if c.ruleId == "consume.compose_depends_on" then "consume.compose_depends_on"
     else "consume.k8s_service_host")
    + if c.fromTestFile then ".test_file" else ""
  }

  ghost function TierOf(facts: seq<Fact<HostsFact>>, key: EdgeKey, c: HostFinding): string {
    if !ByService(facts, key, c) then "2b" else if c.ruleId == "consume.compose_depends_on" then "1" else "2a"
  }

  ghost function StrengthOf(facts: seq<Fact<HostsFact>>, key: EdgeKey, c: HostFinding): real {
    if ByService(facts, key, c) && c.ruleId != "consume.compose_depends_on" then 0.85 else 0.75
  }

  /** One host as a piece of evidence. */
  ghost predicate IsPiece(x: Edge, facts: seq<Fact<HostsFact>>, key: EdgeKey, c: HostFinding) {
    && x.source == key.source && x.target == key.target && x.kind == key.kind
    && x.confidence == StrengthOf(facts, key, c) && x.ruleId == RuleOf(facts, key, c) && x.tier == TierOf(facts, key, c)
    && x.caption == c.host && x.matchedHost == c.host && x.evidencePath == c.evidencePath && x.envVar == c.envVar
    && x.fromTestFile == c.fromTestFile && x.alsoEvidence == []
    && x.fingerprint == Fingerprint([RuleOf(facts, key, c), c.host, c.evidencePath, key.source, key.target])
  }

  lemma HostIsPiece(facts: seq<Fact<HostsFact>>, key: EdgeKey, c: HostFinding)
    requires Supports(facts, key, c)
    ensures var m := Match(c, ServiceOwners(facts), IngressOwners(facts));
            m.Some? && IsPiece(EdgeFor(key.source, c, m.value), facts, key, c)
  {
    hide ServiceLabel, HostDeclarers, ServiceDeclarers, KindOf;
    MatchNamesTheOnlyDeclarer(facts, c, key.target);
    IndexesHoldTheDeclarers(facts, ServiceLabel(c.host));
    IndexesHoldTheDeclarers(facts, c.host);
    ResolveOwned(ServiceDeclarers(facts, ServiceLabel(c.host)), key.target);
    RulesDiffer();
    var m := Match(c, ServiceOwners(facts), IngressOwners(facts));
    var x := EdgeFor(key.source, c, m.value);
    assert KindOf(c) == key.kind;
    if !c.fromTestFile {
      assert RuleOf(facts, key, c) == m.value.ruleId + "" == m.value.ruleId;
    }
  }

  lemma RulesDiffer()
    ensures COMPOSE_DEPENDS_ON != K8S_SERVICE_HOST && COMPOSE_DEPENDS_ON != INGRESS_HOST && K8S_SERVICE_HOST != INGRESS_HOST
  {
    assert COMPOSE_DEPENDS_ON[8] == 'c' && K8S_SERVICE_HOST[8] == 'k' && INGRESS_HOST[8] == 'i';
  }

  /** The hosts behind an edge, in the order they are listed. */
  ghost function Supporting(facts: seq<Fact<HostsFact>>, key: EdgeKey, hosts: seq<HostFinding>): seq<HostFinding> {
    Filter(c => Supports(facts, key, c), hosts)
  }

  ghost predicate ArePieces(evidence: seq<Edge>, facts: seq<Fact<HostsFact>>, key: EdgeKey, hosts: seq<HostFinding>) {
    |evidence| == |hosts| && forall i :: 0 <= i < |hosts| ==> IsPiece(evidence[i], facts, key, hosts[i])
  }

  lemma PiecesOneMore(evidence: seq<Edge>, x: Edge, facts: seq<Fact<HostsFact>>, key: EdgeKey, hosts: seq<HostFinding>,
                      c: HostFinding)
    requires ArePieces(evidence, facts, key, hosts) && IsPiece(x, facts, key, c)
    ensures ArePieces(evidence + [x], facts, key, hosts + [c])
  {
    hide IsPiece;
  }

  lemma SupportingOneMore(facts: seq<Fact<HostsFact>>, key: EdgeKey, hosts: seq<HostFinding>, c: HostFinding)
    ensures Supporting(facts, key, hosts + [c])
            == if Supports(facts, key, c) then Supporting(facts, key, hosts) + [c] else Supporting(facts, key, hosts)
  {
    hide Supports;
    FilterOneMore(x => Supports(facts, key, x), hosts, c);
  }

  ghost function EvidenceIn(facts: seq<Fact<HostsFact>>, key: EdgeKey, hosts: seq<HostFinding>): seq<Edge> {
    EvidenceOf(Candidates(key.source, hosts, ServiceOwners(facts), IngressOwners(facts)), key)
  }

  lemma EvidenceInOneMore(facts: seq<Fact<HostsFact>>, key: EdgeKey, hosts: seq<HostFinding>, c: HostFinding)
    returns (x: Option<Edge>)
    ensures Supports(facts, key, c) ==>
              x.Some? && IsPiece(x.value, facts, key, c) && EvidenceIn(facts, key, hosts + [c]) == EvidenceIn(facts, key, hosts) + [x.value]
    ensures !Supports(facts, key, c) ==> EvidenceIn(facts, key, hosts + [c]) == EvidenceIn(facts, key, hosts)
  {
    hide IsPiece, Match, EdgeFor, Supports, KeyOf;
    var services, ingress := ServiceOwners(facts), IngressOwners(facts);
    var before := Candidates(key.source, hosts, services, ingress);
    assert (hosts + [c])[..|hosts|] == hosts;
    PieceOf(facts, key, c);
    var m := Match(c, services, ingress);
    x := None;
    if m.Some? && m.value.target != key.source {
      x := Some(EdgeFor(key.source, c, m.value));
      EvidenceOneMore(before, x.value, key);
      if Supports(facts, key, c) {
        HostIsPiece(facts, key, c);
      }
    }
  }

  lemma {:induction false} EvidenceIsTheHosts(facts: seq<Fact<HostsFact>>, key: EdgeKey, hosts: seq<HostFinding>)
    ensures ArePieces(EvidenceIn(facts, key, hosts), facts, key, Supporting(facts, key, hosts))
  {
    if hosts != [] {
      hide IsPiece, EvidenceIn, Supports, ArePieces;
      var front, last := hosts[..|hosts| - 1], hosts[|hosts| - 1];
      EvidenceIsTheHosts(facts, key, front);
      SplitLast(hosts);
      var x := EvidenceInOneMore(facts, key, front, last);
      SupportingOneMore(facts, key, front, last);
      if Supports(facts, key, last) {
        PiecesOneMore(EvidenceIn(facts, key, front), x.value, facts, key, Supporting(facts, key, front), last);
      }
    }
  }

  function PathsOf(hosts: seq<HostFinding>): seq<string> {
    seq(|hosts|, i requires 0 <= i < |hosts| => hosts[i].evidencePath)
  }

  /** The `p`-th host is the first outside test files, or the first of all when there is none. */
  ghost predicate FirstOutsideTests(hosts: seq<HostFinding>, p: nat) {
    && p < |hosts| && (forall j :: 0 <= j < p ==> hosts[j].fromTestFile)
    && (hosts[p].fromTestFile ==> p == 0 && forall j :: 0 <= j < |hosts| ==> hosts[j].fromTestFile)
  }

  ghost predicate FirstStrongest(facts: seq<Fact<HostsFact>>, key: EdgeKey, hosts: seq<HostFinding>, m: nat) {
    && m < |hosts| && (forall j :: 0 <= j < m ==> StrengthOf(facts, key, hosts[j]) < StrengthOf(facts, key, hosts[m]))
    && (forall j :: 0 <= j < |hosts| ==> StrengthOf(facts, key, hosts[j]) <= StrengthOf(facts, key, hosts[m]))
  }

  /** What a merged edge says of the hosts its evidence stands for. */
  ghost predicate EdgeSays(x: Edge, facts: seq<Fact<HostsFact>>, key: EdgeKey, hosts: seq<HostFinding>, p: nat, m: nat) {
    && FirstOutsideTests(hosts, p) && FirstStrongest(facts, key, hosts, m)
    && x.confidence == StrengthOf(facts, key, hosts[m]) && x.caption == hosts[0].host && x.matchedHost == hosts[0].host
    && x.evidencePath == hosts[p].evidencePath && x.envVar == hosts[p].envVar
    && (x.fromTestFile <==> forall i :: 0 <= i < |hosts| ==> hosts[i].fromTestFile)
    && x.alsoEvidence == Dedup(PathsOf(hosts[1..]))
    && var owner := hosts[if m > p then m else p];
    && x.ruleId == RuleOf(facts, key, owner) && x.tier == TierOf(facts, key, owner)
    && x.fingerprint == Fingerprint([RuleOf(facts, key, owner), owner.host, owner.evidencePath, key.source, key.target])
  }

  lemma ReadAcross(x: Edge, evidence: seq<Edge>, facts: seq<Fact<HostsFact>>, key: EdgeKey, hosts: seq<HostFinding>)
    returns (p: nat, m: nat)
    requires evidence != [] && ArePieces(evidence, facts, key, hosts) && ClosedForm(x, evidence)
    ensures EdgeSays(x, facts, key, hosts, p, m)
  {
    hide ArePieces, FirstProduction, FirstMaximum, Dedup, RuleOf, TierOf, StrengthOf, Paths, FirstOutsideTests, FirstStrongest;
    p, m := FirstProduction(evidence), FirstMaximum(evidence);
    ProductionReads(evidence, facts, key, hosts);
    MaximumReads(evidence, facts, key, hosts);
    PathsRead(evidence, facts, key, hosts);
    PieceAt(evidence, facts, key, hosts, 0);
    PieceAt(evidence, facts, key, hosts, p);
    PieceAt(evidence, facts, key, hosts, m);
  }

  lemma PieceAt(evidence: seq<Edge>, facts: seq<Fact<HostsFact>>, key: EdgeKey, hosts: seq<HostFinding>, i: nat)
    requires ArePieces(evidence, facts, key, hosts) && i < |evidence|
    ensures |evidence| == |hosts| && IsPiece(evidence[i], facts, key, hosts[i])
  {
    hide IsPiece;
  }

  lemma ProductionReads(evidence: seq<Edge>, facts: seq<Fact<HostsFact>>, key: EdgeKey, hosts: seq<HostFinding>)
    requires evidence != [] && ArePieces(evidence, facts, key, hosts)
    ensures FirstOutsideTests(hosts, FirstProduction(evidence))
    ensures AllTest(evidence) <==> forall i :: 0 <= i < |hosts| ==> hosts[i].fromTestFile
  {
    hide FirstProduction, RuleOf, TierOf, StrengthOf;
    assert forall j :: 0 <= j < |hosts| ==> evidence[j].fromTestFile == hosts[j].fromTestFile;
  }

  lemma MaximumReads(evidence: seq<Edge>, facts: seq<Fact<HostsFact>>, key: EdgeKey, hosts: seq<HostFinding>)
    requires evidence != [] && ArePieces(evidence, facts, key, hosts)
    ensures FirstStrongest(facts, key, hosts, FirstMaximum(evidence))
  {
    hide FirstMaximum, RuleOf, TierOf, StrengthOf;
    assert forall j :: 0 <= j < |hosts| ==> evidence[j].confidence == StrengthOf(facts, key, hosts[j]);
  }

  lemma PathsRead(evidence: seq<Edge>, facts: seq<Fact<HostsFact>>, key: EdgeKey, hosts: seq<HostFinding>)
    requires evidence != [] && ArePieces(evidence, facts, key, hosts)
    ensures Paths(evidence[1..]) == PathsOf(hosts[1..])
  {
    hide RuleOf, TierOf, StrengthOf;
    assert forall j :: 0 <= j < |hosts| ==> evidence[j].evidencePath == hosts[j].evidencePath;
  }

  /**
   * A derived consumption edge says this of the hosts behind it: the strength of the strongest; the name of the
   * first; the path and variable of the first outside test files, and that it is a test file's only if all are; every
   * later path once; and the rule, tier and fingerprint of whichever comes later, the first strongest host or the
   * first outside test files.
   */
  lemma ConsumptionEdgeSays(facts: seq<Fact<HostsFact>>, e: DerivedEdge) returns (x: Edge, p: nat, m: nat)
    requires HasAgreement(e, facts)
    ensures e.source in Payloads(facts)
    ensures EdgeSays(x, facts, KeyOfDerived(e),
                     Supporting(facts, KeyOfDerived(e), Payloads(facts)[e.source].consumed), p, m)
    ensures e.origin == Config && e.confidence == x.confidence && e.caption == x.caption && e.fingerprint == x.fingerprint
    ensures e.metadata == ConsumeEvidence(x.ruleId, x.matchedHost, x.evidencePath, x.envVar, x.tier, x.fromTestFile,
                                          x.alsoEvidence)
  {
    hide EdgeSays, ClosedForm, ArePieces, MergeAll;
    var key := KeyOfDerived(e);
    var consumed := if e.source in Payloads(facts) then Payloads(facts)[e.source].consumed else [];
    var evidence := EvidenceIn(facts, key, consumed);
    EvidenceIsTheHosts(facts, key, consumed);
    FirstPieceIsFresh(facts, key, consumed);
    MergeHasClosedForm(evidence);
    x := MergeAll(evidence);
    p, m := ReadAcross(x, evidence, facts, key, Supporting(facts, key, consumed));
  }

  lemma FirstPieceIsFresh(facts: seq<Fact<HostsFact>>, key: EdgeKey, hosts: seq<HostFinding>)
    ensures EvidenceIn(facts, key, hosts) != [] ==> EvidenceIn(facts, key, hosts)[0].alsoEvidence == []
  {
    EvidenceIsTheHosts(facts, key, hosts);
  }

  // ── from a written name to its edge ────────────────────────────────────────

  /**
   * The connection is asynchronous exactly when a broker marker stands somewhere in the variable's name, in any case.
   */
  lemma KindIff(c: HostFinding)
    ensures KindOf(c) == (if exists marker, i: nat :: marker in BROKER_MARKERS && StandsAt(ToUpper(c.envVar), marker, i) then Async else Http)
  {
    forall marker
      ensures Contains(ToUpper(c.envVar), marker) <==> exists i: nat :: StandsAt(ToUpper(c.envVar), marker, i)
    {
      ContainsIff(ToUpper(c.envVar), marker);
    }
    if marker, i: nat :| marker in BROKER_MARKERS && StandsAt(ToUpper(c.envVar), marker, i) {
      var k :| 0 <= k < |BROKER_MARKERS| && BROKER_MARKERS[k] == marker;
    }
  }

  lemma DeclarersByNormalForm(facts: seq<Fact<HostsFact>>, a: string, b: string)
    requires Normal(a) == Normal(b)
    ensures ServiceDeclarers(facts, a) == ServiceDeclarers(facts, b) && HostDeclarers(facts, a) == HostDeclarers(facts, b)
  {
  }

  /** Whoever declares the service is whoever declares the label of any host written from its name. */
  lemma LabelDeclarers(facts: seq<Fact<HostsFact>>, host: string, service: string, rest: string)
    requires IsLabel(service) && IsSuffix(rest) && ToLower(host) == ToLower(service + rest)
    ensures ServiceDeclarers(facts, ServiceLabel(host)) == ServiceDeclarers(facts, service)
  {
    LabelOfHost(host, service, rest);
    NormalIsNormal(service);
    DeclarersByNormalForm(facts, ServiceLabel(host), service);
  }

  /**
   * A repository that consumes a host written from a service name — the name alone, or followed by a domain, a port
   * or both, in any letter case — depends on the only repository that declares the service: the edge is derived, with
   * the greater confidence unless the name came from a compose file's `depends_on`.
   */
  lemma InClusterNameGivesEdge(facts: seq<Fact<HostsFact>>, edges: seq<DerivedEdge>, source: string, target: string,
                               c: HostFinding, service: string, rest: string)
    returns (e: DerivedEdge)
    requires HoldsAgreement(edges, facts) && source in Payloads(facts) && c in Payloads(facts)[source].consumed
    requires IsLabel(service) && IsSuffix(rest) && ToLower(c.host) == ToLower(service + rest)
    requires ServiceDeclarers(facts, service) == {target} && source != target
    ensures e in edges && e.source == source && e.target == target && e.kind == KindOf(c)
    ensures c.ruleId != "consume.compose_depends_on" ==> e.confidence == 0.85
  {
    hide ServiceDeclarers, HostDeclarers, KindOf, ServiceLabel, HasAgreement;
    LabelDeclarers(facts, c.host, service, rest);
    var key := EdgeKey(source, target, KindOf(c));
    assert Consumes(facts, source, target, KindOf(c));
    ConsumptionEdgesExactly(facts, edges, key);
    e :| e in edges && KeyOfDerived(e) == key;
    ConfidenceExactly(facts, e);
  }

  /** And a repository that consumes nothing else has no edge beside those. */
  lemma OnlyNamesGiveEdges(facts: seq<Fact<HostsFact>>, edges: seq<DerivedEdge>, e: DerivedEdge)
    returns (c: HostFinding)
    requires HoldsAgreement(edges, facts) && e in edges
    ensures e.source in Payloads(facts) && c in Payloads(facts)[e.source].consumed && e.source != e.target && KindOf(c) == e.kind
    ensures || ServiceDeclarers(facts, ServiceLabel(c.host)) == {e.target}
            || (HostDeclarers(facts, c.host) == {e.target} && c.ruleId != "consume.compose_depends_on")
  {
    ConsumptionEdgesExactly(facts, edges, KeyOfDerived(e));
    c :| c in Payloads(facts)[e.source].consumed && KindOf(c) == e.kind && NamesOnly(facts, c, e.target);
  }
}
