/** What the rows of a run say, and when a run gets to the end. */
module RelationshipContent {
  import opened Wrappers
  import opened DerivedRows
  import opened Relationships

  /** The edge never reaches the table: an end is missing, it joins a repository to itself, or people suppressed it. */
  predicate Skipped(edge: DerivedEdge, hidden: set<string>) {
    edge.source == "" || edge.target == "" || edge.source == edge.target || edge.fingerprint in hidden
  }

  /** The row is derived under the key by the run stamping `seenAt`, and says all that the edge says. */
  predicate Says(row: Relationship, organization: string, key: string, edge: DerivedEdge, seenAt: int) {
    && row.live && row.place.organization == organization
    && row.place.source == edge.source && row.place.target == edge.target && row.place.kind == edge.kind
    && row.content.caption == edge.caption && row.content.description == "" && row.content.origin == edge.origin
    && row.content.confidence == edge.confidence && row.content.metadata == edge.metadata
    && row.mark.Some? && row.mark.value.key == key && row.mark.value.fingerprint == edge.fingerprint
    && row.mark.value.lastSeen == seenAt
  }

  /** Two edges of one run stand for the same row. */
  predicate SameEdge(a: DerivedEdge, b: DerivedEdge) {
    a.source == b.source && a.target == b.target && a.kind == b.kind && a.fingerprint == b.fingerprint
  }

  /** The `n`-th edge reaches the table, and none after it stands for the same row. */
  ghost predicate LastOfItsRow(edges: seq<DerivedEdge>, hidden: set<string>, n: nat) {
    && n < |edges| && !Skipped(edges[n], hidden)
    && forall m :: n < m < |edges| && !Skipped(edges[m], hidden) ==> !SameEdge(edges[m], edges[n])
  }

  lemma {:induction false} LastLike(edges: seq<DerivedEdge>, hidden: set<string>, e: DerivedEdge) returns (n: nat)
    requires e in edges && !Skipped(e, hidden)
    ensures LastOfItsRow(edges, hidden, n) && SameEdge(edges[n], e)
  {
    var last := |edges| - 1;
    if !Skipped(edges[last], hidden) && SameEdge(edges[last], e) {
      n := last;
    } else {
      assert edges == edges[..last] + [edges[last]];
      n := LastLike(edges[..last], hidden, e);
      assert forall m :: 0 <= m < last ==> edges[..last][m] == edges[m];
    }
  }

  /** After a finished run, the last edge of every row it writes has a live row that says what the edge says. */
  lemma EveryEdgeIsSaid(rows: seq<Relationship>, hidden: set<string>, organization: string, key: string,
                        derived: DerivedSet, startedAt: int, calls: nat, n: nat)
    returns (i: nat)
    requires Applied(rows, hidden, organization, key, derived, startedAt, calls).1.Done?
    requires LastOfItsRow(derived.edges, hidden, n)
    ensures var after := Applied(rows, hidden, organization, key, derived, startedAt, calls).0;
            i < |after| && Says(after[i], organization, key, derived.edges[n], startedAt + ONE_MILLISECOND)
  {
    hide Applied;
    i := LastEdgeDecides(rows, hidden, organization, key, derived, startedAt, calls, n);
  }

  /** The edge a live row of the key stands for after a finished, complete run without overlap. */
  lemma EdgeBehindRow(rows: seq<Relationship>, hidden: set<string>, organization: string, key: string,
                      derived: DerivedSet, startedAt: int, calls: nat, i: nat)
    returns (e: DerivedEdge)
    requires Applied(rows, hidden, organization, key, derived, startedAt, calls).1.Done? && derived.complete
    requires NoOverlap(rows, key, startedAt)
    requires var after := Applied(rows, hidden, organization, key, derived, startedAt, calls).0;
             i < |after| && InScope(after[i], AnyPlace, key)
    ensures e in derived.edges && !Skipped(e, hidden)
    ensures var row := Applied(rows, hidden, organization, key, derived, startedAt, calls).0[i];
            && row.place == Place(organization, e.source, e.target, e.kind) && row.mark.value.fingerprint == e.fingerprint
  {
    hide Applied, NoOverlap;
    Convergence(rows, hidden, organization, key, derived, startedAt, calls);
    var row := Applied(rows, hidden, organization, key, derived, startedAt, calls).0[i];
    assert IdentityOf(row) in LiveIdentities(Applied(rows, hidden, organization, key, derived, startedAt, calls).0,
                                             key);
    e :| e in derived.edges && Wanted(e, hidden) && IdentityOf(row) == Identity(Place(organization, e.source, e.target, e.kind), e.fingerprint);
  }

  /**
   * After a finished, complete run without overlap every live row of its key says exactly what one edge says: of all
   * the edges that stand for that row, the last.
   */
  lemma EveryLiveRowSaysItsLastEdge(rows: seq<Relationship>, hidden: set<string>, organization: string, key: string,
                                    derived: DerivedSet, startedAt: int, calls: nat, i: nat)
    returns (n: nat)
    requires Unique(rows, ByMark)
    requires Applied(rows, hidden, organization, key, derived, startedAt, calls).1.Done? && derived.complete
    requires NoOverlap(rows, key, startedAt)
    requires var after := Applied(rows, hidden, organization, key, derived, startedAt, calls).0;
             i < |after| && InScope(after[i], AnyPlace, key)
    ensures LastOfItsRow(derived.edges, hidden, n)
    ensures Says(Applied(rows, hidden, organization, key, derived, startedAt, calls).0[i], organization, key,
                 derived.edges[n], startedAt + ONE_MILLISECOND)
  {
    hide Applied, NoOverlap;
    var e := EdgeBehindRow(rows, hidden, organization, key, derived, startedAt, calls, i);
    n := LastLike(derived.edges, hidden, e);
    var j := EveryEdgeIsSaid(rows, hidden, organization, key, derived, startedAt, calls, n);
    RunKeepsUnique(rows, hidden, organization, key, derived, startedAt, calls);
    var after := Applied(rows, hidden, organization, key, derived, startedAt, calls).0;
    assert Same(after[i], after[j], ByMark);
  }

  // ── when a run gets to the end ─────────────────────────────────────────────

  /**
   * The table accepts what the edge says: kind and origin are known and the confidence is between nothing and
   * certainty.
   */
  predicate Acceptable(edge: DerivedEdge) {
    !edge.kind.UnknownKind? && !edge.origin.UnknownOrigin? && 0.0 <= edge.confidence <= 1.0
  }

  function Reaching(edges: seq<DerivedEdge>, hidden: set<string>): seq<DerivedEdge> {
    Filter(e => !Skipped(e, hidden), edges)
  }

  lemma {:induction false} ClaimsAreForTheReaching(edges: seq<DerivedEdge>, hidden: set<string>, organization: string,
                                                   key: string, seenAt: int)
    ensures |Claims(edges, hidden, organization, key, seenAt)| == |Reaching(edges, hidden)|
    ensures forall k :: 0 <= k < |Reaching(edges, hidden)| ==>
                          Claims(edges, hidden, organization, key, seenAt)[k] == RowFor(organization, key, seenAt, Reaching(edges, hidden)[k])
  {
    if edges != [] {
      ClaimsAreForTheReaching(edges[..|edges| - 1], hidden, organization, key, seenAt);
    }
  }

  lemma {:induction false} AllLandIff(claims: seq<Relationship>, calls: nat)
    ensures Landed(claims, calls) == |claims|
            <==> |claims| <= calls && forall k :: 0 <= k < |claims| ==> Storable(claims[k])
  {
    if claims != [] {
      var front := claims[..|claims| - 1];
      AllLandIff(front, calls);
      assert forall k :: 0 <= k < |front| ==> front[k] == claims[k];
    }
  }

  lemma AllAcceptedIff(edges: seq<DerivedEdge>, hidden: set<string>, organization: string, key: string, seenAt: int)
    requires organization != "" && key != ""
    ensures var claims := Claims(edges, hidden, organization, key, seenAt);
            (forall k :: 0 <= k < |claims| ==> Storable(claims[k])) <==> forall e :: e in Reaching(edges, hidden) ==> Acceptable(e)
  {
    hide Claims, Storable, Acceptable;
    var reaching, claims := Reaching(edges, hidden), Claims(edges, hidden, organization, key, seenAt);
    ClaimsAreForTheReaching(edges, hidden, organization, key, seenAt);
    forall k | 0 <= k < |claims|
      ensures Storable(claims[k]) <==> Acceptable(reaching[k])
    {
      assert reaching[k] in reaching;
      AcceptedIff(organization, key, seenAt, reaching[k], hidden);
    }
  }

  lemma AcceptedIff(organization: string, key: string, seenAt: int, edge: DerivedEdge, hidden: set<string>)
    requires organization != "" && key != "" && !Skipped(edge, hidden)
    ensures Storable(RowFor(organization, key, seenAt, edge)) <==> Acceptable(edge)
  {
  }

  /**
   * A run gets to the end exactly when storage lasts for the listing, every edge that reaches the table and, if the
   * facts were complete, the sweep; and the table accepts them all. It then reports how many it wrote and whether it
   * swept.
   */
  lemma RunFinishesIff(rows: seq<Relationship>, hidden: set<string>, organization: string, key: string,
                       derived: DerivedSet, startedAt: int, calls: nat)
    requires organization != "" && key != ""
    ensures var outcome := Applied(rows, hidden, organization, key, derived, startedAt, calls).1;
            var reaching := Reaching(derived.edges, hidden);
            && (outcome.Done? <==> && calls >= 1 + |reaching| + (if derived.complete then 1 else 0)
                                   && forall e :: e in reaching ==> Acceptable(e))
            && (outcome.Done? ==> outcome == Done(|reaching|, !derived.complete))
  {
    hide Claims, Storable, Acceptable, Reaching, Landed, Reconciled;
    var seenAt := startedAt + ONE_MILLISECOND;
    ClaimsAreForTheReaching(derived.edges, hidden, organization, key, seenAt);
    AllAcceptedIff(derived.edges, hidden, organization, key, seenAt);
    if calls > 0 {
      AllLandIff(Claims(derived.edges, hidden, organization, key, seenAt), calls - 1);
    }
  }
}
