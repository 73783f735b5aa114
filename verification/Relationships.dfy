/**
 * Repository relationships: the rows people declare and the rows derivation runs reconcile, in one table.
 *
 * A derived row is identified by (organization, source, target, kind, derivation key, fingerprint); a row a
 * person declared, or took over by editing it, carries no mark.
 */
module Relationships {
  import opened Wrappers
  import opened DerivedRows

  datatype Kind = Http | Async | Library | Data | Infra | ManualKind | Other | Provides | Uses | UnknownKind(text: string)

  datatype Origin = Manual | Analysis | Manifest | Import | Webhook | LegacyDependency | Config | UnknownOrigin(text: string)

  datatype Metadata =
    | Untyped(text: string)
    | LibraryEvidence(ruleId: string, ecosystem: string, packageName: string, manifestPath: string, purl: string,
                      version: string)
    | ConsumeEvidence(ruleId: string, matchedHost: string, evidencePath: string, envVar: string, tier: string,
                      fromTestFile: bool, alsoEvidence: seq<string>)

  datatype Place = Place(organization: string, source: string, target: string, kind: Kind)

  datatype Content = Content(caption: string, description: string, origin: Origin, confidence: real, metadata: Metadata)

  type Relationship = Row<Place, Content>

  datatype DerivedEdge = DerivedEdge(source: string, target: string, kind: Kind, origin: Origin, confidence: real,
                                     caption: string, fingerprint: string, metadata: Metadata)

  datatype DerivedSet = DerivedSet(edges: seq<DerivedEdge>, complete: bool, reasons: seq<string>)

  datatype Suppression = Suppression(organization: string, key: string, fingerprint: string)

  datatype Outcome = Done(upserted: nat, sweepSkipped: bool) | Failed(upserted: nat)

  datatype ServiceError = Invalid | RepositoryNotFound | RelationshipNotFound | Forbidden

  datatype CreateRequest = CreateRequest(source: string, target: string, kind: Kind, caption: string,
                                         description: string, metadata: Metadata)

  datatype UpdateRequest = UpdateRequest(kind: Option<Kind>, caption: Option<string>, description: Option<string>,
                                         confidence: Option<real>, metadata: Option<Metadata>)

  /** How much later than its start a run stamps what it observes, in microseconds. */
  const ONE_MILLISECOND := 1000

  predicate IsValid(row: Relationship) {
    && row.place.organization != "" && row.place.source != "" && row.place.target != ""
    && row.place.source != row.place.target
    && !row.place.kind.UnknownKind? && !row.content.origin.UnknownOrigin?
    && 0.0 <= row.content.confidence <= 1.0
  }

  predicate AnyPlace(place: Place) { true }

  // ── one run ────────────────────────────────────────────────────────────────

  predicate Wanted(edge: DerivedEdge, hidden: set<string>) {
    edge.source != "" && edge.target != "" && edge.source != edge.target && edge.fingerprint !in hidden
  }

  function RowFor(organization: string, key: string, seenAt: int, edge: DerivedEdge): Relationship {
    Row(Place(organization, edge.source, edge.target, edge.kind), Some(Mark(key, edge.fingerprint, seenAt)), true,
        Content(edge.caption, "", edge.origin, edge.confidence, edge.metadata))
  }

  /** The rows a run writes, in order: one for every edge that is no self-edge and not suppressed. */
  function Claims(edges: seq<DerivedEdge>, hidden: set<string>, organization: string, key: string,
                  seenAt: int): (c: seq<Relationship>)
    ensures |c| <= |edges|
  {
    if edges == [] then []
    else
      var front, last := Claims(edges[..|edges| - 1], hidden, organization, key, seenAt), edges[|edges| - 1];
      if Wanted(last, hidden) then front + [RowFor(organization, key, seenAt, last)] else front
  }

  predicate Storable(row: Relationship) {
    IsValid(row) && row.mark.Some? && row.mark.value.key != ""
  }

  /** How many of the writes land when only `calls` of them reach storage and an invalid row stops the run. */
  function Landed(claims: seq<Relationship>, calls: nat): (n: nat)
    ensures n <= |claims| && n <= calls
  {
    if claims == [] then 0
    else
      var front := |claims| - 1;
      var n := Landed(claims[..front], calls);
      if n == front && n < calls && Storable(claims[front]) then n + 1 else n
  }

  /**
   * One run over the table. `calls` is how many storage calls succeed before one fails: the first lists the
   * suppressions, each write is one, and the sweep is the last.
   */
  function Applied(rows: seq<Relationship>, hidden: set<string>, organization: string, key: string,
                   derived: DerivedSet, startedAt: int, calls: nat): (r: (seq<Relationship>, Outcome))
  {
    if calls == 0 then (rows, Failed(0))
    else
      var claims := Claims(derived.edges, hidden, organization, key, startedAt + ONE_MILLISECOND);
      var n := Landed(claims, calls - 1);
      var sweeps := n == |claims| && derived.complete && n < calls - 1 && key != "";
      (Reconciled(rows, claims, n, sweeps, ByMark, AnyPlace, key, startedAt),
       if n < |claims| then Failed(n)
       else if !derived.complete then Done(n, true)
       else if sweeps then Done(n, false)
       else Failed(n))
  }

  // ── a run, exactly ─────────────────────────────────────────────────────────

  datatype Identity = Identity(place: Place, fingerprint: string)

  function IdentityOf(row: Relationship): Identity
    requires row.mark.Some?
  {
    Identity(row.place, row.mark.value.fingerprint)
  }

  /** What the live rows of a key stand for. */
  function LiveIdentities(rows: seq<Relationship>, key: string): set<Identity> {
    set i | 0 <= i < |rows| && InScope(rows[i], AnyPlace, key) :: IdentityOf(rows[i])
  }

  function WantedIdentities(edges: seq<DerivedEdge>, hidden: set<string>, organization: string): set<Identity> {
    set e | e in edges && Wanted(e, hidden) :: Identity(Place(organization, e.source, e.target, e.kind), e.fingerprint)
  }

  /** What the key's live rows that another run observed at or after `startedAt` stand for. */
  function OverlappingIdentities(rows: seq<Relationship>, key: string, startedAt: int): set<Identity> {
    set i | 0 <= i < |rows| && Recent(rows[i], AnyPlace, key, startedAt) :: IdentityOf(rows[i])
  }

  function Fingerprints(identities: set<Identity>): set<string> {
    set d | d in identities :: d.fingerprint
  }

  lemma {:induction false} ClaimsAreTheWantedEdges(edges: seq<DerivedEdge>, hidden: set<string>, organization: string,
                                                   key: string, seenAt: int)
    ensures forall w :: w in Claims(edges, hidden, organization, key, seenAt) <==>
                        exists e :: e in edges && Wanted(e, hidden) && w == RowFor(organization, key, seenAt, e)
  {
    if edges != [] {
      var front, last := edges[..|edges| - 1], edges[|edges| - 1];
      ClaimsAreTheWantedEdges(front, hidden, organization, key, seenAt);
      assert edges == front + [last];
      forall w
        ensures w in Claims(edges, hidden, organization, key, seenAt) <==>
                exists e :: e in edges && Wanted(e, hidden) && w == RowFor(organization, key, seenAt, e)
      {
        assert w in Claims(edges, hidden, organization, key, seenAt) <==>
               w in Claims(front, hidden, organization, key, seenAt) || (Wanted(last, hidden) && w == RowFor(organization, key, seenAt, last));
      }
    }
  }

  /** Every write of a run is live, carries the run's key and timestamp, and is not suppressed. */
  lemma ClaimsCarryTheRun(edges: seq<DerivedEdge>, hidden: set<string>, organization: string, key: string,
                          seenAt: int, n: nat)
    requires n <= |Claims(edges, hidden, organization, key, seenAt)|
    ensures forall w :: w in Claims(edges, hidden, organization, key, seenAt)[..n] ==>
                          && w.live && w.mark.Some? && w.mark.value.key == key && w.mark.value.lastSeen == seenAt
                          && w.mark.value.fingerprint !in hidden && w.place.organization == organization
  {
    ClaimsAreTheWantedEdges(edges, hidden, organization, key, seenAt);
    forall w | w in Claims(edges, hidden, organization, key, seenAt)[..n]
      ensures && w.live && w.mark.Some? && w.mark.value.key == key && w.mark.value.lastSeen == seenAt
              && w.mark.value.fingerprint !in hidden && w.place.organization == organization
    {
      assert w in Claims(edges, hidden, organization, key, seenAt);
    }
  }

  /**
   * A run that completes its sweep leaves live, under its key, exactly what its non-self, unsuppressed edges
   * stand for, plus what an overlapping run observed — whatever the old rows, the edge order or collisions.
   */
  lemma RunLeavesExactly(rows: seq<Relationship>, hidden: set<string>, organization: string, key: string,
                         derived: DerivedSet, startedAt: int, calls: nat)
    requires Applied(rows, hidden, organization, key, derived, startedAt, calls).1.Done? && derived.complete
    ensures LiveIdentities(Applied(rows, hidden, organization, key, derived, startedAt, calls).0, key)
            == WantedIdentities(derived.edges, hidden, organization) + OverlappingIdentities(rows, key, startedAt)
  {
    var seenAt := startedAt + ONE_MILLISECOND;
    var claims := Claims(derived.edges, hidden, organization, key, seenAt);
    var after := Applied(rows, hidden, organization, key, derived, startedAt, calls).0;
    var live, wanted, overlap := LiveIdentities(after, key), WantedIdentities(derived.edges, hidden, organization),
                                 OverlappingIdentities(rows, key, startedAt);
    ClaimsAreTheWantedEdges(derived.edges, hidden, organization, key, seenAt);
    ReconciledExactly(rows, claims, ByMark, AnyPlace, key, startedAt);
    forall d | d in live
      ensures d in wanted + overlap
    {
      var i :| 0 <= i < |after| && InScope(after[i], AnyPlace, key) && d == IdentityOf(after[i]);
      if w :| w in claims && Holds(after[i], w, ByMark) {
        var e :| e in derived.edges && Wanted(e, hidden) && w == RowFor(organization, key, seenAt, e);
      }
    }
    forall d | d in wanted
      ensures d in live
    {
      var e :| e in derived.edges && Wanted(e, hidden) && d == Identity(Place(organization, e.source, e.target, e.kind), e.fingerprint);
      CoveredIsLive(after, RowFor(organization, key, seenAt, e), key, startedAt);
    }
    forall d | d in overlap
      ensures d in live
    {
      var i :| 0 <= i < |rows| && Recent(rows[i], AnyPlace, key, startedAt) && d == IdentityOf(rows[i]);
      CoveredIsLive(after, rows[i], key, startedAt);
    }
  }

  lemma CoveredIsLive(rows: seq<Relationship>, row: Relationship, key: string, seen: int)
    requires row.mark.Some? && row.mark.value.key == key && Covered(rows, row, ByMark, seen)
    ensures IdentityOf(row) in LiveIdentities(rows, key)
  {
    var i :| 0 <= i < |rows| && rows[i].live && Same(rows[i], row, ByMark) && SeenSince(rows[i], ByMark, seen);
    assert InScope(rows[i], AnyPlace, key);
    assert IdentityOf(rows[i]) == IdentityOf(row);
  }

  /** Every live row of the key was last observed before `startedAt`. */
  ghost predicate NoOverlap(rows: seq<Relationship>, key: string, startedAt: int) {
    forall i :: 0 <= i < |rows| && InScope(rows[i], AnyPlace, key) ==> rows[i].mark.value.lastSeen < startedAt
  }

  /** Convergence without overlap: the fingerprints and the identities left live are exactly those asked for. */
  lemma Convergence(rows: seq<Relationship>, hidden: set<string>, organization: string, key: string,
                    derived: DerivedSet, startedAt: int, calls: nat)
    requires Applied(rows, hidden, organization, key, derived, startedAt, calls).1.Done? && derived.complete
    requires NoOverlap(rows, key, startedAt)
    ensures var after := Applied(rows, hidden, organization, key, derived, startedAt, calls).0;
            && LiveIdentities(after, key) == WantedIdentities(derived.edges, hidden, organization)
            && Fingerprints(LiveIdentities(after, key)) == set e | e in derived.edges && Wanted(e, hidden) :: e.fingerprint
  {
    RunLeavesExactly(rows, hidden, organization, key, derived, startedAt, calls);
    assert OverlappingIdentities(rows, key, startedAt) == {};
    var wanted := WantedIdentities(derived.edges, hidden, organization);
    forall e | e in derived.edges && Wanted(e, hidden)
      ensures e.fingerprint in Fingerprints(wanted)
    {
      assert Identity(Place(organization, e.source, e.target, e.kind), e.fingerprint) in wanted;
    }
  }

  /**
   * Overlap is the only obstacle: a completed run converges if and only if every row an overlapping run saw is still
   * wanted.
   */
  lemma ConvergesIffOverlapIsWanted(rows: seq<Relationship>, hidden: set<string>, organization: string, key: string,
                                    derived: DerivedSet, startedAt: int, calls: nat)
    requires Applied(rows, hidden, organization, key, derived, startedAt, calls).1.Done? && derived.complete
    ensures LiveIdentities(Applied(rows, hidden, organization, key, derived, startedAt, calls).0, key)
            == WantedIdentities(derived.edges, hidden, organization)
            <==> OverlappingIdentities(rows, key, startedAt) <= WantedIdentities(derived.edges, hidden, organization)
  {
    RunLeavesExactly(rows, hidden, organization, key, derived, startedAt, calls);
  }

  /** When several edges share an identity, the live row says what the last of them says. */
  lemma LastEdgeDecides(rows: seq<Relationship>, hidden: set<string>, organization: string, key: string,
                        derived: DerivedSet, startedAt: int, calls: nat, n: nat)
    returns (i: nat)
    requires Applied(rows, hidden, organization, key, derived, startedAt, calls).1.Done?
    requires n < |derived.edges| && Wanted(derived.edges[n], hidden)
    requires forall m :: n < m < |derived.edges| && Wanted(derived.edges[m], hidden) ==>
                           !Same(RowFor(organization, key, 0, derived.edges[m]),
                                 RowFor(organization, key, 0, derived.edges[n]), ByMark)
    ensures var after := Applied(rows, hidden, organization, key, derived, startedAt, calls).0;
            i < |after| && after[i] == RowFor(organization, key, startedAt + ONE_MILLISECOND, derived.edges[n])
  {
    var seenAt := startedAt + ONE_MILLISECOND;
    var claims := Claims(derived.edges, hidden, organization, key, seenAt);
    var at := ClaimOfEdge(derived.edges, hidden, organization, key, seenAt, n);
    ClaimsAreTheWantedEdges(derived.edges, hidden, organization, key, seenAt);
    assert claims[..|claims|] == claims;
    i := LastWriteHolds(rows, claims, ByMark, at);
  }

  /** `row` is what some wanted edge after the `n`-th writes. */
  ghost predicate FromLaterEdge(row: Relationship, edges: seq<DerivedEdge>, hidden: set<string>, organization: string,
                                key: string,
                                seenAt: int, n: nat)
  {
    exists k :: n < k < |edges| && Wanted(edges[k], hidden) && row == RowFor(organization, key, seenAt, edges[k])
  }

  /** Where an edge's row sits among the writes, and that only later edges come after it. */
  lemma {:induction false} ClaimOfEdge(edges: seq<DerivedEdge>, hidden: set<string>, organization: string,
                                       key: string, seenAt: int, n: nat)
    returns (at: nat)
    requires n < |edges| && Wanted(edges[n], hidden)
    ensures var claims := Claims(edges, hidden, organization, key, seenAt);
            && at < |claims| && claims[at] == RowFor(organization, key, seenAt, edges[n])
            && forall m :: at < m < |claims| ==> FromLaterEdge(claims[m], edges, hidden, organization, key, seenAt, n)
    decreases |edges|
  {
    var front, last := edges[..|edges| - 1], edges[|edges| - 1];
    var before := Claims(front, hidden, organization, key, seenAt);
    if n == |edges| - 1 {
      at := |before|;
    } else {
      at := ClaimOfEdge(front, hidden, organization, key, seenAt, n);
      var claims := Claims(edges, hidden, organization, key, seenAt);
      forall m | at < m < |claims|
        ensures FromLaterEdge(claims[m], edges, hidden, organization, key, seenAt, n)
      {
        if m < |before| {
          assert FromLaterEdge(before[m], front, hidden, organization, key, seenAt, n);
          var k :| n < k < |front| && Wanted(front[k], hidden) && before[m] == RowFor(organization, key, seenAt, front[k]);
          assert edges[k] == front[k];
        } else {
          assert claims[m] == RowFor(organization, key, seenAt, edges[|edges| - 1]);
        }
      }
    }
  }

  /** Without complete facts, or when any storage call fails, a run retires no row of any key. */
  lemma NoRetractionWithoutEvidence(rows: seq<Relationship>, hidden: set<string>, organization: string, key: string,
                                    derived: DerivedSet, startedAt: int, calls: nat)
    requires !derived.complete || Applied(rows, hidden, organization, key, derived, startedAt, calls).1.Failed?
    ensures var after := Applied(rows, hidden, organization, key, derived, startedAt, calls).0;
            |rows| <= |after| && forall i :: 0 <= i < |rows| && rows[i].live ==> after[i].live
  {
    if calls > 0 {
      var claims := Claims(derived.edges, hidden, organization, key, startedAt + ONE_MILLISECOND);
      NoSweepNoRetraction(rows, claims[..Landed(claims, calls - 1)], ByMark);
    }
  }

  /** The row carries the mark this run writes. */
  predicate MarkedBy(row: Relationship, hidden: set<string>, organization: string, key: string, startedAt: int) {
    && row.mark.Some? && row.mark.value.key == key && row.mark.value.lastSeen == startedAt + ONE_MILLISECOND
    && row.mark.value.fingerprint !in hidden && row.place.organization == organization
  }

  /** Every row a run leaves was there before, or carries this run's mark. */
  lemma RunRowComesFrom(rows: seq<Relationship>, hidden: set<string>, organization: string, key: string,
                        derived: DerivedSet, startedAt: int, calls: nat, i: nat)
    requires i < |Applied(rows, hidden, organization, key, derived, startedAt, calls).0|
    ensures var row := Applied(rows, hidden, organization, key, derived, startedAt, calls).0[i];
            (i < |rows| && Descends(row, rows[i])) || MarkedBy(row, hidden, organization, key, startedAt)
  {
    if calls > 0 {
      var claims := Claims(derived.edges, hidden, organization, key, startedAt + ONE_MILLISECOND);
      var n := Landed(claims, calls - 1);
      var sweeps := n == |claims| && derived.complete && n < calls - 1 && key != "";
      ClaimsCarryTheRun(derived.edges, hidden, organization, key, startedAt + ONE_MILLISECOND, |claims|);
      WholePrefix(claims);
      ReconciledRowComesFrom(rows, claims, n, sweeps, ByMark, AnyPlace, key, startedAt, i);
    }
  }

  /** A run never changes what a derived row stands for. */
  lemma RunKeepsIdentity(rows: seq<Relationship>, hidden: set<string>, organization: string, key: string,
                         derived: DerivedSet, startedAt: int, calls: nat, i: nat)
    requires i < |rows| && rows[i].mark.Some?
    ensures var after := Applied(rows, hidden, organization, key, derived, startedAt, calls).0;
            i < |after| && Same(after[i], rows[i], ByMark)
  {
    if calls > 0 {
      var claims := Claims(derived.edges, hidden, organization, key, startedAt + ONE_MILLISECOND);
      PutAllKeepsIdentity(rows, claims[..Landed(claims, calls - 1)], ByMark, i);
    }
  }

  lemma RunKeepsUnique(rows: seq<Relationship>, hidden: set<string>, organization: string, key: string,
                       derived: DerivedSet, startedAt: int, calls: nat)
    requires Unique(rows, ByMark)
    ensures Unique(Applied(rows, hidden, organization, key, derived, startedAt, calls).0, ByMark)
  {
    if calls > 0 {
      var claims := Claims(derived.edges, hidden, organization, key, startedAt + ONE_MILLISECOND);
      var landed := claims[..Landed(claims, calls - 1)];
      PutAllKeepsUnique(rows, landed, ByMark);
      SweepKeepsUnique(PutAll(rows, landed, ByMark), ByMark, AnyPlace, key, startedAt);
    }
  }
}
