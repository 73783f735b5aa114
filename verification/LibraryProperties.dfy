/** What the derived library edges say, measured against a brute-force reading of the facts. */
module LibraryProperties {
  import opened Claimants
  import opened Facts
  import opened Fingerprints
  import opened Relationships
  import opened Libraries

  ghost predicate Publishes(fact: Fact<PackagesFact>, name: PackageName) {
    name.0 != "" && name.1 != "" && fact.repository != "" && PublishedPackage(name.0, name.1) in fact.data.published
  }

  /** Every repository of the organization whose facts publish the name. */
  ghost function Publishers(facts: seq<Fact<PackagesFact>>, name: PackageName): set<string> {
    set f | f in facts && Publishes(f, name) :: f.repository
  }

  lemma {:induction false} OwnersFromOneFact(owners: Owners, published: seq<PublishedPackage>, repository: string,
                                             name: PackageName)
    ensures OwnersOf(OwnersFrom(owners, published, repository), name)
            == OwnersOf(owners, name)
               + if name.0 != "" && name.1 != "" && repository != "" && PublishedPackage(name.0, name.1) in published then {repository} else {}
  {
    if published != [] {
      var front, last := published[..|published| - 1], published[|published| - 1];
      OwnersFromOneFact(owners, front, repository, name);
      assert published == front + [last];
    }
  }

  /** The index holds exactly the publishers of every name. */
  lemma {:induction false} IndexHoldsThePublishers(facts: seq<Fact<PackagesFact>>, name: PackageName)
    ensures OwnersOf(AllOwners(facts), name) == Publishers(facts, name)
  {
    if facts != [] {
      var front, last := facts[..|facts| - 1], facts[|facts| - 1];
      IndexHoldsThePublishers(front, name);
      OwnersFromOneFact(AllOwners(front), last.data.published, last.repository, name);
      assert facts == front + [last];
      assert Publishers(facts, name) == Publishers(front, name) + if Publishes(last, name) then {last.repository} else {};
    }
  }

  /** Some internal requirement of the repository yields this very edge. */
  ghost predicate Justified(e: DerivedEdge, owners: Owners, repository: string, required: seq<RequiredPackage>) {
    exists r :: r in required && Internal(owners, repository, r, e.target) && e == LibraryEdge(repository, e.target, r)
  }

  /**
   * A repository's edges come from its internal requirements, and every internal requirement's fingerprint is
   * emitted.
   */
  lemma {:induction false} SourceEdgesExactly(owners: Owners, repository: string, required: seq<RequiredPackage>)
    ensures forall e :: e in SourceEdges(owners, repository, required) ==> Justified(e, owners, repository, required)
    ensures forall r, target :: r in required && Internal(owners, repository, r, target) ==>
                                  Emits(SourceEdges(owners, repository, required), LibraryFingerprint(r))
  {
    if required != [] {
      var front, last := required[..|required| - 1], required[|required| - 1];
      SourceEdgesExactly(owners, repository, front);
      var before, edges := SourceEdges(owners, repository, front), SourceEdges(owners, repository, required);
      var r := SoleOwner(OwnersOf(owners, (last.ecosystem, last.name)));
      assert required == front + [last];
      if r.Owned? {
        ResolveOwned(OwnersOf(owners, (last.ecosystem, last.name)), r.repository);
      }
      forall e | e in edges
        ensures Justified(e, owners, repository, required)
      {
        if e in before {
          assert Justified(e, owners, repository, front);
          var q :| q in front && Internal(owners, repository, q, e.target) && e == LibraryEdge(repository, e.target, q);
          assert q in required;
        } else {
          assert last in required;
        }
      }
      forall q, target | q in required && Internal(owners, repository, q, target)
        ensures Emits(edges, LibraryFingerprint(q))
      {
        if q == last {
          ResolveOwned(OwnersOf(owners, (last.ecosystem, last.name)), target);
        }
        if Emits(before, LibraryFingerprint(q)) {
          var i :| 0 <= i < |before| && before[i].fingerprint == LibraryFingerprint(q);
          assert edges[i] == before[i];
        } else {
          assert edges[|before|].fingerprint == LibraryFingerprint(q);
        }
      }
    }
  }

  ghost predicate NulFreeRequirements(facts: seq<Fact<PackagesFact>>) {
    forall f, r :: f in facts && r in f.data.required ==> NulFree(r.ecosystem) && NulFree(r.name) && NulFree(r.manifestPath)
  }

  lemma {:induction false} PayloadComesFromAFact(facts: seq<Fact<PackagesFact>>, repository: string)
    requires repository in Payloads(facts)
    ensures exists f :: f in facts && f.repository == repository && f.data == Payloads(facts)[repository]
  {
    var last := facts[|facts| - 1];
    if last.repository != repository {
      PayloadComesFromAFact(facts[..|facts| - 1], repository);
      var f :| f in facts[..|facts| - 1] && f.repository == repository && f.data == Payloads(facts[..|facts| - 1])[repository];
      assert f in facts;
    }
  }

  lemma PayloadIsNulFree(facts: seq<Fact<PackagesFact>>, repository: string)
    requires NulFreeRequirements(facts) && repository in Payloads(facts)
    ensures forall r :: r in Payloads(facts)[repository].required ==> NulFree(r.ecosystem) && NulFree(r.name) && NulFree(r.manifestPath)
  {
    PayloadComesFromAFact(facts, repository);
  }

  lemma SameFingerprintSameRequirement(p: RequiredPackage, q: RequiredPackage)
    requires NulFree(p.ecosystem) && NulFree(p.name) && NulFree(p.manifestPath)
    requires NulFree(q.ecosystem) && NulFree(q.name) && NulFree(q.manifestPath)
    ensures LibraryFingerprint(p) == LibraryFingerprint(q)
            <==> p.ecosystem == q.ecosystem && p.name == q.name && p.manifestPath == q.manifestPath
  {
    var a := [RuleForEcosystem(p.ecosystem), p.ecosystem, p.name, p.manifestPath];
    var b := [RuleForEcosystem(q.ecosystem), q.ecosystem, q.name, q.manifestPath];
    assert NulFree("libdep.gomod") && NulFree("libdep.npm") && NulFree("libdep.maven") && NulFree("libdep.python")
           && NulFree("libdep.cargo") && NulFree("libdep.nuget") && NulFree("libdep.unknown");
    if LibraryFingerprint(p) == LibraryFingerprint(q) {
      FingerprintIsInjective(a, b);
      assert a[1] == b[1] && a[2] == b[2] && a[3] == b[3];
    }
  }

  /** S declares the name, T is the only repository publishing it, and T is not S. */
  ghost predicate DependsOn(facts: seq<Fact<PackagesFact>>, source: string, target: string, required: RequiredPackage) {
    && source in Payloads(facts) && required in Payloads(facts)[source].required
    && Publishers(facts, (required.ecosystem, required.name)) == {target} && target != source
  }

  ghost predicate EvidenceFor(e: DerivedEdge, source: string, target: string, required: RequiredPackage) {
    && e.source == source && e.target == target && e.metadata.LibraryEvidence?
    && e.metadata.ecosystem == required.ecosystem && e.metadata.packageName == required.name
    && e.metadata.manifestPath == required.manifestPath
  }

  /**
   * The derived edges are the brute-force ones: every edge states a dependency, and every dependency — a
   * declared name only one other repository publishes — has an edge naming its package and manifest.
   */
  lemma LibraryEdgesRefineTheFacts(facts: seq<Fact<PackagesFact>>, edges: seq<DerivedEdge>)
    requires HoldsSourceEdges(edges, AllOwners(facts), Payloads(facts), Payloads(facts).Keys)
    requires NulFreeRequirements(facts)
    ensures forall e :: e in edges ==>
                          exists r :: DependsOn(facts, e.source, e.target, r) && EvidenceFor(e, e.source, e.target, r) && e == LibraryEdge(e.source, e.target, r)
    ensures forall source, target, r :: DependsOn(facts, source, target, r) ==>
                                          exists e :: e in edges && EvidenceFor(e, source, target, r)
  {
    var owners := AllOwners(facts);
    forall e | e in edges
      ensures exists r :: DependsOn(facts, e.source, e.target, r) && EvidenceFor(e, e.source, e.target, r) && e == LibraryEdge(e.source, e.target, r)
    {
      assert EdgeOfSource(e, owners, Payloads(facts));
      SourceEdgesExactly(owners, e.source, Payloads(facts)[e.source].required);
      assert Justified(e, owners, e.source, Payloads(facts)[e.source].required);
      var r :| r in Payloads(facts)[e.source].required && Internal(owners, e.source, r, e.target) && e == LibraryEdge(e.source, e.target, r);
      IndexHoldsThePublishers(facts, (r.ecosystem, r.name));
      assert DependsOn(facts, e.source, e.target, r) && EvidenceFor(e, e.source, e.target, r);
    }
    forall source, target, r | DependsOn(facts, source, target, r)
      ensures exists e :: e in edges && EvidenceFor(e, source, target, r)
    {
      DependencyHasItsEdge(facts, edges, source, target, r);
    }
  }

  lemma EmittedEdge(owners: Owners, source: string, required: seq<RequiredPackage>, r: RequiredPackage, target: string)
    returns (e: DerivedEdge, q: RequiredPackage)
    requires r in required && Internal(owners, source, r, target)
    ensures e in SourceEdges(owners, source, required) && e.fingerprint == LibraryFingerprint(r) && e.source == source
    ensures q in required && Internal(owners, source, q, e.target) && e == LibraryEdge(source, e.target, q)
  {
    SourceEdgesExactly(owners, source, required);
    SourceEdgesAreDistinct(owners, source, required);
    var own := SourceEdges(owners, source, required);
    var i :| 0 <= i < |own| && own[i].fingerprint == LibraryFingerprint(r);
    e := own[i];
    assert Justified(e, owners, source, required);
    q :| q in required && Internal(owners, source, q, e.target) && e == LibraryEdge(source, e.target, q);
  }

  lemma DependencyHasItsEdge(facts: seq<Fact<PackagesFact>>, edges: seq<DerivedEdge>, source: string, target: string,
                             r: RequiredPackage)
    requires HoldsSourceEdges(edges, AllOwners(facts), Payloads(facts), Payloads(facts).Keys)
    requires NulFreeRequirements(facts) && DependsOn(facts, source, target, r)
    ensures exists e :: e in edges && EvidenceFor(e, source, target, r)
  {
    IndexHoldsThePublishers(facts, (r.ecosystem, r.name));
    var e, q := EmittedEdge(AllOwners(facts), source, Payloads(facts)[source].required, r, target);
    assert EdgeOfSource(e, AllOwners(facts), Payloads(facts));
    PayloadIsNulFree(facts, source);
    SameFingerprintSameRequirement(q, r);
    assert {target} == {e.target};
    assert e.target in {target};
    assert EvidenceFor(e, source, target, r);
  }

  /**
   * Two library edges of an organization share a fingerprint exactly when they share target, package and
   * manifest path; and then, unless they are the same edge, their source repositories differ.
   */
  lemma LibraryCollisions(facts: seq<Fact<PackagesFact>>, edges: seq<DerivedEdge>, i: nat, j: nat)
    requires HoldsSourceEdges(edges, AllOwners(facts), Payloads(facts), Payloads(facts).Keys)
    requires NulFreeRequirements(facts)
    requires i < |edges| && j < |edges|
    ensures edges[i].metadata.LibraryEvidence? && edges[j].metadata.LibraryEvidence?
    ensures edges[i].fingerprint == edges[j].fingerprint
            <==> && edges[i].target == edges[j].target
                 && edges[i].metadata.ecosystem == edges[j].metadata.ecosystem
                 && edges[i].metadata.packageName == edges[j].metadata.packageName
                 && edges[i].metadata.manifestPath == edges[j].metadata.manifestPath
    ensures edges[i].fingerprint == edges[j].fingerprint && i != j ==> edges[i].source != edges[j].source
  {
    var p := RequirementBehind(facts, edges, i);
    var q := RequirementBehind(facts, edges, j);
    SameFingerprintSameRequirement(p, q);
    if edges[i].fingerprint == edges[j].fingerprint {
      assert edges[i].target in Publishers(facts, (p.ecosystem, p.name));
    }
  }

  lemma RequirementBehind(facts: seq<Fact<PackagesFact>>, edges: seq<DerivedEdge>, i: nat) returns (r: RequiredPackage)
    requires HoldsSourceEdges(edges, AllOwners(facts), Payloads(facts), Payloads(facts).Keys)
    requires NulFreeRequirements(facts) && i < |edges|
    ensures edges[i] == LibraryEdge(edges[i].source, edges[i].target, r)
    ensures Publishers(facts, (r.ecosystem, r.name)) == {edges[i].target}
    ensures NulFree(r.ecosystem) && NulFree(r.name) && NulFree(r.manifestPath)
  {
    LibraryEdgesRefineTheFacts(facts, edges);
    var e := edges[i];
    assert e in edges;
    r :| DependsOn(facts, e.source, e.target, r) && EvidenceFor(e, e.source, e.target, r) && e == LibraryEdge(e.source, e.target, r);
    PayloadIsNulFree(facts, e.source);
  }

  // ── when fingerprints identify edges, read off the facts ───────────────────

  /** Two repositories depend on one package, declaring it at the same manifest path. */
  ghost predicate Contend(facts: seq<Fact<PackagesFact>>, a: string, b: string, target: string, r: RequiredPackage,
                          q: RequiredPackage)
  {
    && a != b && DependsOn(facts, a, target, r) && DependsOn(facts, b, target, q)
    && r.ecosystem == q.ecosystem && r.name == q.name && r.manifestPath == q.manifestPath
  }

  lemma ContendersCollide(facts: seq<Fact<PackagesFact>>, edges: seq<DerivedEdge>, a: string, b: string, target: string,
                          r: RequiredPackage, q: RequiredPackage) returns (i: nat, j: nat)
    requires HoldsSourceEdges(edges, AllOwners(facts), Payloads(facts), Payloads(facts).Keys)
    requires NulFreeRequirements(facts) && Contend(facts, a, b, target, r, q)
    ensures i < |edges| && j < |edges| && edges[i].source == a && edges[j].source == b
    ensures edges[i].target == edges[j].target == target && edges[i].fingerprint == edges[j].fingerprint
  {
    hide HoldsSourceEdges, DependsOn, NulFreeRequirements;
    DependencyHasItsEdge(facts, edges, a, target, r);
    DependencyHasItsEdge(facts, edges, b, target, q);
    var e :| e in edges && EvidenceFor(e, a, target, r);
    var f :| f in edges && EvidenceFor(f, b, target, q);
    i :| 0 <= i < |edges| && edges[i] == e;
    j :| 0 <= j < |edges| && edges[j] == f;
    LibraryCollisions(facts, edges, i, j);
  }

  lemma CollidersContend(facts: seq<Fact<PackagesFact>>, edges: seq<DerivedEdge>, i: nat, j: nat)
    requires HoldsSourceEdges(edges, AllOwners(facts), Payloads(facts), Payloads(facts).Keys)
    requires NulFreeRequirements(facts)
    requires i < j < |edges| && edges[i].fingerprint == edges[j].fingerprint
    ensures exists r, q :: Contend(facts, edges[i].source, edges[j].source, edges[i].target, r, q)
  {
    hide HoldsSourceEdges, DependsOn, EvidenceFor, NulFreeRequirements;
    LibraryCollisions(facts, edges, i, j);
    var e, f := edges[i], edges[j];
    var r := DependencyBehind(facts, edges, e);
    var q := DependencyBehind(facts, edges, f);
    ContendHere(facts, e, f, r, q);
  }

  lemma DependencyBehind(facts: seq<Fact<PackagesFact>>, edges: seq<DerivedEdge>, e: DerivedEdge)
    returns (r: RequiredPackage)
    requires HoldsSourceEdges(edges, AllOwners(facts), Payloads(facts), Payloads(facts).Keys)
    requires NulFreeRequirements(facts) && e in edges
    ensures DependsOn(facts, e.source, e.target, r) && EvidenceFor(e, e.source, e.target, r)
    ensures e == LibraryEdge(e.source, e.target, r)
  {
    hide HoldsSourceEdges, DependsOn, EvidenceFor, NulFreeRequirements;
    LibraryEdgesRefineTheFacts(facts, edges);
    r :| DependsOn(facts, e.source, e.target, r) && EvidenceFor(e, e.source, e.target, r) && e == LibraryEdge(e.source, e.target, r);
  }

  lemma ContendHere(facts: seq<Fact<PackagesFact>>, e: DerivedEdge, f: DerivedEdge, r: RequiredPackage,
                    q: RequiredPackage)
    requires DependsOn(facts, e.source, e.target, r) && EvidenceFor(e, e.source, e.target, r)
    requires DependsOn(facts, f.source, f.target, q) && EvidenceFor(f, f.source, f.target, q)
    requires e.source != f.source && e.target == f.target && e.metadata.ecosystem == f.metadata.ecosystem
    requires e.metadata.packageName == f.metadata.packageName && e.metadata.manifestPath == f.metadata.manifestPath
    ensures Contend(facts, e.source, f.source, e.target, r, q)
  {
    hide DependsOn;
  }

  /**
   * A fingerprint identifies one edge of an organization if and only if no two repositories, neither of them the
   * package's only publisher, declare one package at one manifest path.
   */
  lemma FingerprintsIdentifyEdgesIff(facts: seq<Fact<PackagesFact>>, edges: seq<DerivedEdge>)
    requires HoldsSourceEdges(edges, AllOwners(facts), Payloads(facts), Payloads(facts).Keys)
    requires NulFreeRequirements(facts)
    ensures Distinct(edges) <==> !exists a, b, target, r, q :: Contend(facts, a, b, target, r, q)
  {
    hide HoldsSourceEdges, Contend, NulFreeRequirements;
    if a, b, target, r, q :| Contend(facts, a, b, target, r, q) {
      var i, j := ContendersCollide(facts, edges, a, b, target, r, q);
      ContendersDiffer(facts, a, b, target, r, q);
      assert i < j || j < i;
    }
    if !Distinct(edges) {
      var i, j :| 0 <= i < j < |edges| && edges[i].fingerprint == edges[j].fingerprint;
      CollidersContend(facts, edges, i, j);
    }
  }

  lemma ContendersDiffer(facts: seq<Fact<PackagesFact>>, a: string, b: string, target: string, r: RequiredPackage,
                         q: RequiredPackage)
    requires Contend(facts, a, b, target, r, q)
    ensures a != b
  {
  }

  // One library and two consumers of it, each with its package.json at the root.

  const CORE := RequiredPackage("npm", "core", "core", "package.json", "1.0.0", "")

  function FactOf(repository: string, published: seq<PublishedPackage>,
                  required: seq<RequiredPackage>): Fact<PackagesFact>
  {
    Fact("org", repository, PackagesFact(published, required), true, COMPLETE, "sha", true, 1, 0)
  }

  const LIBRARY := FactOf("lib", [PublishedPackage("npm", "core")], [])

  const FIRST := FactOf("a", [], [CORE])

  const SECOND := FactOf("b", [], [CORE])

  lemma PayloadsOfThree(x: Fact<PackagesFact>, y: Fact<PackagesFact>, z: Fact<PackagesFact>)
    ensures Payloads([x, y, z]) == map[x.repository := x.data][y.repository := y.data][z.repository := z.data]
  {
    hide Payloads, Reasons;
    NothingRead();
    OneMoreFact([], x);
    OneMoreFact([x], y);
    OneMoreFact([x, y], z);
    assert [] + [x] == [x] && [x] + [y] == [x, y] && [x, y] + [z] == [x, y, z];
  }

  lemma NothingRead()
    ensures Payloads<PackagesFact>([]) == map[]
  {
  }

  lemma OnlyTheLibraryPublishes()
    ensures Publishers([LIBRARY, FIRST, SECOND], ("npm", "core")) == {"lib"}
  {
    var facts := [LIBRARY, FIRST, SECOND];
    assert LIBRARY in facts && PublishedPackage("npm", "core") in LIBRARY.data.published;
    assert Publishes(LIBRARY, ("npm", "core"));
    assert forall f :: f in facts && Publishes(f, ("npm", "core")) ==> f == LIBRARY;
  }

  lemma ConsumerDepends(consumer: Fact<PackagesFact>)
    requires consumer == FIRST || consumer == SECOND
    ensures DependsOn([LIBRARY, FIRST, SECOND], consumer.repository, "lib", CORE)
  {
    hide Publishers;
    PayloadsOfThree(LIBRARY, FIRST, SECOND);
    OnlyTheLibraryPublishes();
    assert "a"[0] != "b"[0] && "a"[0] != "lib"[0] && "b"[0] != "lib"[0];
    assert CORE in consumer.data.required;
  }

  lemma CoreIsNulFree()
    ensures NulFreeRequirements([LIBRARY, FIRST, SECOND])
  {
    assert NulFree("npm") && NulFree("core") && NulFree("package.json");
  }

  /** The edges of the two consumers carry one fingerprint under the organization's one key. */
  lemma TwoConsumersCollide(edges: seq<DerivedEdge>) returns (i: nat, j: nat)
    requires var facts := [LIBRARY, FIRST, SECOND];
             HoldsSourceEdges(edges, AllOwners(facts), Payloads(facts), Payloads(facts).Keys)
    ensures i < |edges| && j < |edges| && edges[i].source == "a" && edges[j].source == "b"
    ensures edges[i].fingerprint == edges[j].fingerprint
  {
    hide HoldsSourceEdges, AllOwners, DependsOn, NulFreeRequirements, Payloads;
    ConsumerDepends(FIRST);
    ConsumerDepends(SECOND);
    CoreIsNulFree();
    assert "a"[0] != "b"[0];
    i, j := ContendersCollide([LIBRARY, FIRST, SECOND], edges, "a", "b", "lib", CORE, CORE);
  }
}
