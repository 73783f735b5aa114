/** Library edges: an index of who publishes what, and the declared dependencies it resolves. */
module Libraries {
  import opened Wrappers
  import opened Claimants
  import opened Facts
  import opened Fingerprints
  import opened Ordering
  import opened Relationships

  type PackageName = (string, string)

  datatype PublishedPackage = PublishedPackage(ecosystem: string, name: string)

  datatype RequiredPackage = RequiredPackage(ecosystem: string, name: string, rawName: string, manifestPath: string,
                                             version: string, purl: string)

  datatype PackagesFact = PackagesFact(published: seq<PublishedPackage>, required: seq<RequiredPackage>)

  datatype Ambiguity = Ambiguity(ecosystem: string, name: string, claimants: seq<string>)

  const EXACT_NAME := 1.0

  function RuleForEcosystem(ecosystem: string): string {
    match ecosystem
    case "go" => "libdep.gomod"
    case "npm" => "libdep.npm"
    case "maven" => "libdep.maven"
    case "python" => "libdep.python"
    case "cargo" => "libdep.cargo"
    case "nuget" => "libdep.nuget"
    case _ => "libdep.unknown"
  }

  // ── the index ──────────────────────────────────────────────────────────────

  type Owners = map<PackageName, set<string>>

  function OwnersOf(owners: Owners, name: PackageName): set<string> {
    if name in owners then owners[name] else {}
  }

  function WithOwner(owners: Owners, ecosystem: string, name: string, repository: string): Owners {
    if ecosystem == "" || name == "" || repository == "" then owners
    else owners[(ecosystem, name) := OwnersOf(owners, (ecosystem, name)) + {repository}]
  }

  class PackageIndex {
    var owners: Owners

    constructor ()
      ensures owners == map[]
    {
      owners := map[];
    }

    method Add(ecosystem: string, name: string, repository: string)
      modifies this
      ensures owners == WithOwner(old(owners), ecosystem, name, repository)
    {
      if ecosystem == "" || name == "" || repository == "" {
        return;
      }
      if (ecosystem, name) !in owners {
        owners := owners[(ecosystem, name) := {}];
      }
      owners := owners[(ecosystem, name) := owners[(ecosystem, name)] + {repository}];
    }

    method Resolve(ecosystem: string, name: string) returns (r: Resolution)
      ensures r == SoleOwner(OwnersOf(owners, (ecosystem, name)))
    {
      r := ResolveClaimants(OwnersOf(owners, (ecosystem, name)));
    }

    /** Every contested name with its claimants, in order whatever order the map is walked in. */
    method Ambiguities() returns (list: seq<Ambiguity>)
      ensures ListsAmbiguities(list, owners)
    {
      hide Lists, PairBefore, OwnersOf;
      var names := ContestedNames();
      list := [];
      for i := 0 to |names|
        invariant Names(list) == names[..i]
        invariant forall k :: 0 <= k < |list| ==> IsAmbiguity(list[k], owners)
      {
        var claimants := SortedElements(OwnersOf(owners, names[i]));
        list := list + [Ambiguity(names[i].0, names[i].1, claimants)];
      }
    }

    method ContestedNames() returns (names: seq<PackageName>)
      ensures Ascending(names, PairBefore)
      ensures forall n :: n in names <==> |OwnersOf(owners, n)| >= 2
    {
      hide PairBefore;
      var remaining := owners.Keys;
      names := [];
      while remaining != {}
        invariant remaining <= owners.Keys
        invariant forall n :: n in names <==> n !in remaining && |OwnersOf(owners, n)| >= 2
        invariant forall i, j :: 0 <= i < j < |names| ==> names[i] != names[j]
        decreases |remaining|
      {
        var n :| n in remaining;
        assert n !in names;
        remaining := remaining - {n};
        if |owners[n]| >= 2 {
          names := names + [n];
        }
      }
      PairBeforeIsStrictOrder();
      SortAscends(names, PairBefore);
      names := Sort(names, PairBefore);
    }
  }

  method SortedElements(s: set<string>) returns (list: seq<string>)
    ensures Lists(list, s)
  {
    var remaining := s;
    list := [];
    while remaining != {}
      invariant remaining <= s
      invariant forall x :: x in list <==> x in s - remaining
      invariant forall i, j :: 0 <= i < j < |list| ==> list[i] != list[j]
      decreases |remaining|
    {
      var x :| x in remaining;
      assert x !in list;
      remaining := remaining - {x};
      list := list + [x];
    }
    BeforeIsStrictOrder();
    SortAscends(list, Before);
    list := Sort(list, Before);
  }

  /** `list` is the elements of `s`, each once, in ascending order. */
  ghost predicate Lists(list: seq<string>, s: set<string>) {
    Ascending(list, Before) && forall x :: x in list <==> x in s
  }

  function Names(list: seq<Ambiguity>): seq<PackageName> {
    seq(|list|, i requires 0 <= i < |list| => (list[i].ecosystem, list[i].name))
  }

  /** The entry lists the claimants of its name. */
  ghost predicate IsAmbiguity(a: Ambiguity, owners: Owners) {
    Lists(a.claimants, OwnersOf(owners, (a.ecosystem, a.name)))
  }

  /** `list` is exactly the names with two or more claimants, sorted, each with its sorted claimants. */
  ghost predicate ListsAmbiguities(list: seq<Ambiguity>, owners: Owners) {
    && Ascending(Names(list), PairBefore)
    && (forall n :: n in Names(list) <==> |OwnersOf(owners, n)| >= 2)
    && (forall i :: 0 <= i < |list| ==> IsAmbiguity(list[i], owners))
  }

  /** The list of ambiguities is determined by the index alone. */
  lemma AmbiguitiesAreDetermined(a: seq<Ambiguity>, b: seq<Ambiguity>, owners: Owners)
    requires ListsAmbiguities(a, owners) && ListsAmbiguities(b, owners)
    ensures a == b
  {
    PairBeforeIsStrictOrder();
    AscendingIsUnique(Names(a), Names(b), PairBefore);
    assert |a| == |Names(a)| == |b|;
    forall i | 0 <= i < |a|
      ensures a[i] == b[i]
    {
      assert Names(a)[i] == Names(b)[i];
      BeforeIsStrictOrder();
      AscendingIsUnique(a[i].claimants, b[i].claimants, Before);
    }
  }

  // ── the deriver ────────────────────────────────────────────────────────────

  ghost function OwnersFrom(owners: Owners, published: seq<PublishedPackage>, repository: string): Owners {
    if published == [] then owners
    else
      var last := published[|published| - 1];
      WithOwner(OwnersFrom(owners, published[..|published| - 1], repository), last.ecosystem, last.name, repository)
  }

  ghost function AllOwners(facts: seq<Fact<PackagesFact>>): Owners {
    if facts == [] then map[]
    else
      var last := facts[|facts| - 1];
      OwnersFrom(AllOwners(facts[..|facts| - 1]), last.data.published, last.repository)
  }

  function LibraryFingerprint(required: RequiredPackage): string {
    Fingerprint([RuleForEcosystem(required.ecosystem), required.ecosystem, required.name, required.manifestPath])
  }

  function LibraryEdge(repository: string, owner: string, required: RequiredPackage): DerivedEdge {
    DerivedEdge(repository, owner, Library, Manifest, EXACT_NAME,
                if required.rawName == "" then required.name else required.rawName,
                LibraryFingerprint(required),
                LibraryEvidence(RuleForEcosystem(required.ecosystem), required.ecosystem, required.name,
                                required.manifestPath,
                                required.purl, required.version))
  }

  predicate Emits(edges: seq<DerivedEdge>, fingerprint: string) {
    exists i :: 0 <= i < |edges| && edges[i].fingerprint == fingerprint
  }

  /** A requirement that resolves to the only publisher, and not to the repository declaring it. */
  ghost predicate Internal(owners: Owners, repository: string, required: RequiredPackage, target: string) {
    OwnersOf(owners, (required.ecosystem, required.name)) == {target} && target != repository
  }

  /** The edges of one repository, in the order its requirements list them, each fingerprint once. */
  ghost function SourceEdges(owners: Owners, repository: string, required: seq<RequiredPackage>): seq<DerivedEdge> {
    if required == [] then []
    else
      var before, last := SourceEdges(owners, repository, required[..|required| - 1]), required[|required| - 1];
      var r := SoleOwner(OwnersOf(owners, (last.ecosystem, last.name)));
      if r.Owned? && r.repository != repository && !Emits(before, LibraryFingerprint(last))
      then before + [LibraryEdge(repository, r.repository, last)] else before
  }

  /** `edges` holds the edges of these repositories, none of them twice. */
  ghost predicate HoldsSourceEdges(edges: seq<DerivedEdge>, owners: Owners, payloads: map<string, PackagesFact>,
                                   repositories: set<string>)
  {
    && (forall e :: e in edges <==> e.source in repositories && EdgeOfSource(e, owners, payloads))
    && (forall i, j :: 0 <= i < j < |edges| && edges[i].source == edges[j].source ==> edges[i].fingerprint != edges[j].fingerprint)
  }

  ghost predicate EdgeOfSource(e: DerivedEdge, owners: Owners, payloads: map<string, PackagesFact>) {
    e.source in payloads && e in SourceEdges(owners, e.source, payloads[e.source].required)
  }

  /** No two of the edges carry the same fingerprint. */
  ghost predicate Distinct(edges: seq<DerivedEdge>) {
    forall i, j :: 0 <= i < j < |edges| ==> edges[i].fingerprint != edges[j].fingerprint
  }

  lemma {:induction false} SourceEdgesAreDistinct(owners: Owners, repository: string, required: seq<RequiredPackage>)
    ensures forall e :: e in SourceEdges(owners, repository, required) ==> e.source == repository
    ensures Distinct(SourceEdges(owners, repository, required))
  {
    if required != [] {
      var before, last := SourceEdges(owners, repository, required[..|required| - 1]), required[|required| - 1];
      SourceEdgesAreDistinct(owners, repository, required[..|required| - 1]);
      var r := SoleOwner(OwnersOf(owners, (last.ecosystem, last.name)));
      if r.Owned? && r.repository != repository && !Emits(before, LibraryFingerprint(last)) {
        var edges := before + [LibraryEdge(repository, r.repository, last)];
        assert SourceEdges(owners, repository, required) == edges;
        assert forall i :: 0 <= i < |before| ==> edges[i] == before[i];
      }
    }
  }

  method DeriveSource(index: PackageIndex, repository: string, required: seq<RequiredPackage>)
    returns (edges: seq<DerivedEdge>)
    ensures edges == SourceEdges(index.owners, repository, required)
  {
    edges := [];
    var seen: set<string> := {};
    for i := 0 to |required|
      invariant edges == SourceEdges(index.owners, repository, required[..i])
      invariant forall f :: f in seen <==> Emits(edges, f)
    {
      assert required[..i + 1][..i] == required[..i];
      var r := index.Resolve(required[i].ecosystem, required[i].name);
      if r.Owned? && r.repository != repository {
        var fingerprint := LibraryFingerprint(required[i]);
        if fingerprint !in seen {
          ghost var before := edges;
          var edge := LibraryEdge(repository, r.repository, required[i]);
          edges := edges + [edge];
          seen := seen + {fingerprint};
          assert edges[|before|] == edge;
          assert forall k :: 0 <= k < |before| ==> edges[k] == before[k];
        }
      }
    }
    assert required[..|required|] == required;
  }

  method AddPublished(index: PackageIndex, published: seq<PublishedPackage>, repository: string)
    modifies index
    ensures index.owners == OwnersFrom(old(index.owners), published, repository)
  {
    for k := 0 to |published|
      invariant index.owners == OwnersFrom(old(index.owners), published[..k], repository)
    {
      index.Add(published[k].ecosystem, published[k].name, repository);
      assert published[..k + 1][..k] == published[..k];
    }
    assert published[..|published|] == published;
  }

  /** Reads every fact once: what is published, what each repository requires, and whether all may be trusted. */
  method ReadFacts(facts: seq<Fact<PackagesFact>>)
    returns (index: PackageIndex, payloads: map<string, PackagesFact>, complete: bool, reasons: seq<string>)
    ensures fresh(index) && index.owners == AllOwners(facts) && payloads == Payloads(facts)
    ensures complete == AllComplete(facts) && reasons == Reasons(facts)
  {
    index := new PackageIndex();
    complete, reasons, payloads := true, [], map[];
    ghost var seen: seq<Fact<PackagesFact>> := [];
    for i := 0 to |facts|
      invariant fresh(index) && seen == facts[..i]
      invariant complete == AllComplete(seen) && reasons == Reasons(seen)
      invariant index.owners == AllOwners(seen) && payloads == Payloads(seen)
    {
      OneMoreFact(seen, facts[i]);
      OwnersGrow(seen, facts[i]);
      PrefixGrows(facts, i);
      if !Reading(facts[i]).complete {
        complete := false;
        reasons := CollectReasons(reasons, Reading(facts[i]).reasons);
      }
      payloads := payloads[facts[i].repository := facts[i].data];
      AddPublished(index, facts[i].data.published, facts[i].repository);
      seen := seen + [facts[i]];
    }
    WholePrefix(facts);
  }

  lemma OwnersGrow(facts: seq<Fact<PackagesFact>>, fact: Fact<PackagesFact>)
    ensures AllOwners(facts + [fact]) == OwnersFrom(AllOwners(facts), fact.data.published, fact.repository)
  {
    assert (facts + [fact])[..|facts|] == facts;
  }

  /** Resolves every repository's requirements, in whatever order the payload map is walked. */
  method DeriveEdges(index: PackageIndex, payloads: map<string, PackagesFact>) returns (edges: seq<DerivedEdge>)
    ensures HoldsSourceEdges(edges, index.owners, payloads, payloads.Keys)
  {
    var remaining := payloads.Keys;
    ghost var done: set<string> := {};
    edges := [];
    while remaining != {}
      invariant done + remaining == payloads.Keys && done !! remaining
      invariant HoldsSourceEdges(edges, index.owners, payloads, done)
      decreases |remaining|
    {
      var repository :| repository in remaining;
      var more := DeriveSource(index, repository, payloads[repository].required);
      AddingASource(edges, more, index.owners, payloads, done, repository);
      remaining, done := remaining - {repository}, done + {repository};
      edges := edges + more;
    }
    assert done == payloads.Keys;
  }

  /** Derives every library edge of an organization from its facts. */
  method Derive(facts: seq<Fact<PackagesFact>>) returns (derived: DerivedSet)
    ensures derived.complete == AllComplete(facts) && derived.reasons == Reasons(facts)
    ensures HoldsSourceEdges(derived.edges, AllOwners(facts), Payloads(facts), Payloads(facts).Keys)
  {
    var index, payloads, complete, reasons := ReadFacts(facts);
    var edges := DeriveEdges(index, payloads);
    derived := DerivedSet(edges, complete, reasons);
  }

  lemma AddingASource(edges: seq<DerivedEdge>, more: seq<DerivedEdge>, owners: Owners, payloads: map<string,
                      PackagesFact>,
                      repositories: set<string>, repository: string)
    requires repositories <= payloads.Keys && repository in payloads && repository !in repositories
    requires HoldsSourceEdges(edges, owners, payloads, repositories)
    requires more == SourceEdges(owners, repository, payloads[repository].required)
    ensures HoldsSourceEdges(edges + more, owners, payloads, repositories + {repository})
  {
    SourceEdgesAreDistinct(owners, repository, payloads[repository].required);
    var all := edges + more;
    assert forall i :: 0 <= i < |edges| ==> edges[i] in edges;
    assert forall i :: 0 <= i < |all| ==> all[i] == if i < |edges| then edges[i] else more[i - |edges|];
  }
}
