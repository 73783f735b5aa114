/** What resource reconciliation keeps over every run, and what a run leaves behind. */
module ResourceProperties {
  import opened Wrappers
  import opened DerivedRows
  import opened Facts
  import opened Collector
  import opened Relationships
  import opened Resources

  // ── writing findings ───────────────────────────────────────────────────────

  /** Recording more findings keeps every resource's place and never retires one. */
  lemma {:induction false} ResourcesGrow(resources: seq<Resource>, w: Writer, findings: seq<ResourceFinding>, a: nat,
                                         b: nat)
    requires a <= b <= |findings|
    ensures var x, y := ResourcesAfter(resources, w, findings[..a]), ResourcesAfter(resources, w, findings[..b]);
            |x| <= |y| && forall i :: 0 <= i < |x| ==> y[i].place == x[i].place && (x[i].live ==> y[i].live)
    decreases b
  {
    hide ResourcesAfter;
    if a < b {
      ResourcesGrow(resources, w, findings, a, b - 1);
      var before := ResourcesAfter(resources, w, findings[..b - 1]);
      ResourcesStep(resources, w, findings, b - 1);
      forall i | 0 <= i < |before| {
        PutKeepsIdentity(before, ResourceRow(w, findings[b - 1]), ByPlaceKeepingMark, i);
      }
    }
  }

  lemma {:induction false} LinkRowAt(resources: seq<Resource>, w: Writer, findings: seq<ResourceFinding>, j: nat)
    requires j < |findings|
    ensures LinkRows(resources, w, findings)[j] == LinkRow(w, findings[j],
                                                           ResourceIdOf(resources, w, findings[..j], findings[j]))
  {
    if j < |findings| - 1 {
      LinkRowAt(resources, w, findings[..|findings| - 1], j);
      assert findings[..|findings| - 1][..j] == findings[..j];
    }
  }

  /** A finding's claim points at a live resource in the finding's place, from then on. */
  lemma LinkTarget(resources: seq<Resource>, w: Writer, findings: seq<ResourceFinding>, j: nat, m: nat)
    requires j < m <= |findings|
    ensures var id, after := ResourceIdOf(resources, w, findings[..j], findings[j]), ResourcesAfter(resources, w, findings[..m]);
            id < |after| && after[id].live && after[id].place == PlaceOf(w.organization, w.repository, findings[j])
  {
    var id := ResourceIdOf(resources, w, findings[..j], findings[j]);
    RowsStep(resources, [], w, findings, j);
    PutEstablishes(ResourcesAfter(resources, w, findings[..j]), ResourceRow(w, findings[j]), ByPlaceKeepingMark);
    ResourcesGrow(resources, w, findings, j + 1, m);
  }

  // ── the invariant ──────────────────────────────────────────────────────────

  /**
   * A claim names an existing resource — a live one if the claim is live, and a scoped one only of its own
   * repository.
   */
  predicate GoodClaim(claim: Claim, resources: seq<Resource>) {
    && claim.place.resource < |resources|
    && (claim.live ==> resources[claim.place.resource].live)
    && (resources[claim.place.resource].place.Scoped? ==> resources[claim.place.resource].place.repository == claim.place.repository)
  }

  ghost predicate Sound(t: Tables) {
    && (forall l :: 0 <= l < |t.links| ==> GoodClaim(t.links[l], t.resources))
    && Unique(t.resources, ByPlaceKeepingMark)
    && Unique(t.links, ByMark)
  }

  /** Every claim a write makes is live and points at a live resource. */
  lemma WrittenClaimsAreGood(resources: seq<Resource>, w: Writer, findings: seq<ResourceFinding>, n: nat, m: nat)
    requires n <= m <= |findings|
    ensures forall c :: c in LinkRows(resources, w, findings[..n]) ==> c.live && GoodClaim(c, ResourcesAfter(resources, w, findings[..m]))
  {
    var claims := LinkRows(resources, w, findings[..n]);
    forall c | c in claims
      ensures c.live && GoodClaim(c, ResourcesAfter(resources, w, findings[..m]))
    {
      var j :| 0 <= j < n && claims[j] == c;
      LinkRowAt(resources, w, findings[..n], j);
      assert findings[..n][..j] == findings[..j];
      LinkTarget(resources, w, findings, j, m);
    }
  }

  /** Resources that only gain rows keep every claim good. */
  lemma GoodClaimStaysGood(c: Claim, before: seq<Resource>, after: seq<Resource>)
    requires GoodClaim(c, before) && |before| <= |after|
    requires forall i :: 0 <= i < |before| ==> after[i].place == before[i].place && (before[i].live ==> after[i].live)
    ensures GoodClaim(c, after)
  {
  }

  lemma WritingKeepsSound(t: Tables, w: Writer, findings: seq<ResourceFinding>, calls: nat)
    requires Sound(t)
    ensures Sound(Written(t, w, findings, calls))
  {
    var after := Written(t, w, findings, calls);
    var n, m := FullyRecorded(w, findings, calls), RecordedResources(w, findings, calls);
    var claims := LinkRows(t.resources, w, findings[..n]);
    PutAllKeepsUnique(t.resources, ResourceRows(w, findings[..m]), ByPlaceKeepingMark);
    PutAllKeepsUnique(t.links, claims, ByMark);
    assert findings[..0] == [] && ResourcesAfter(t.resources, w, findings[..0]) == t.resources;
    ResourcesGrow(t.resources, w, findings, 0, m);
    WrittenClaimsAreGood(t.resources, w, findings, n, m);
    forall l | 0 <= l < |after.links|
      ensures GoodClaim(after.links[l], after.resources)
    {
      PutAllWritesNothingElse(t.links, claims, ByMark, l);
      if l < |t.links| && after.links[l] == t.links[l] {
        GoodClaimStaysGood(t.links[l], t.resources, after.resources);
      }
    }
  }

  lemma SweepingKeepsSound(t: Tables, scope: ClaimPlace -> bool, key: string, startedAt: int)
    requires Sound(t)
    ensures Sound(t.(links := Sweep(t.links, scope, key, startedAt)))
  {
    var links := Sweep(t.links, scope, key, startedAt);
    assert forall l :: 0 <= l < |links| ==> GoodClaim(t.links[l], t.resources);
    forall i, j | 0 <= i < |links| && 0 <= j < |links| && Same(links[i], links[j], ByMark)
      ensures i == j
    {
      assert Same(t.links[i], t.links[j], ByMark);
    }
  }

  lemma RetiringKeepsSound(t: Tables, organization: string)
    requires Sound(t)
    ensures Sound(Retired(t, organization))
  {
    var after := Retired(t, organization);
    forall l | 0 <= l < |after.links|
      ensures GoodClaim(after.links[l], after.resources)
    {
      assert GoodClaim(t.links[l], t.resources);
      assert t.links[l].live ==> Claimed(t.links, t.links[l].place.resource);
    }
    forall i, j | 0 <= i < |after.resources| && 0 <= j < |after.resources| && Same(after.resources[i], after.resources[j], ByPlaceKeepingMark)
      ensures i == j
    {
      assert Same(t.resources[i], t.resources[j], ByPlaceKeepingMark);
    }
  }

  lemma FactKeepsSound(t: Tables, organization: string, fact: ResourcesFact, hidden: set<string>, startedAt: int,
                       calls: nat)
    requires Sound(t)
    ensures Sound(ReconciledFact(t, organization, fact, hidden, startedAt, calls).0)
  {
    hide Sound, Written, Sweep, Unsuppressed, FullyRecorded, Reading;
    if calls > 0 {
      var w := Writer(organization, fact.repository, startedAt + ONE_MILLISECOND);
      var findings := Unsuppressed(fact.data, hidden);
      WritingKeepsSound(t, w, findings, calls - 1);
      SweepingKeepsSound(Written(t, w, findings, calls - 1), ScopeOf(fact.repository),
                         ResourceKeyFor(fact.repository), startedAt);
    }
  }

  lemma {:induction false} FactsKeepSound(t: Tables, organization: string, input: RunInput, startedAt: int, n: nat)
    requires Sound(t) && n <= |input.facts|
    ensures Sound(ReconciledFacts(t, organization, input, startedAt, n).0)
  {
    if n > 0 {
      FactsKeepSound(t, organization, input, startedAt, n - 1);
      var fact := input.facts[n - 1];
      FactKeepsSound(ReconciledFacts(t, organization, input, startedAt, n - 1).0, organization, fact,
                     input.hidden(fact.repository),
                     startedAt, input.calls(n - 1));
    }
  }

  /** One run over any organization, at any time, with any facts and any storage failures. */
  datatype RunEvent = RunEvent(organization: string, input: RunInput, startedAt: int)

  function Exec(t: Tables, runs: seq<RunEvent>): Tables {
    if runs == [] then t
    else
      var last := runs[|runs| - 1];
      ReconciledRun(Exec(t, runs[..|runs| - 1]), last.organization, last.input, last.startedAt)
  }

  /**
   * In every reachable state each live claim points at a live resource, a scoped resource is claimed only by its
   * own repository, and one place has one resource row — so a locator stated by two repositories has a single row.
   */
  lemma {:induction false} ReachableTablesAreSound(runs: seq<RunEvent>)
    ensures Sound(Exec(Tables([], []), runs))
  {
    if runs != [] {
      var last := runs[|runs| - 1];
      var before := Exec(Tables([], []), runs[..|runs| - 1]);
      ReachableTablesAreSound(runs[..|runs| - 1]);
      FactsKeepSound(before, last.organization, last.input, last.startedAt, |last.input.facts|);
      RetiringKeepsSound(ReconciledFacts(before, last.organization, last.input, last.startedAt, |last.input.facts|).0,
                         last.organization);
    }
  }

  /**
   * After a run in which some repository was allowed to sweep and retiring orphans succeeded, a derived resource
   * of the organization is live exactly when some repository still has a live claim on it.
   */
  lemma LiveExactlyWhenClaimed(history: seq<RunEvent>, run: RunEvent, i: nat)
    requires var before := Exec(Tables([], []), history);
             ReconciledFacts(before, run.organization, run.input, run.startedAt, |run.input.facts|).1
    requires run.input.retires && run.organization != ""
    requires var after := Exec(Tables([], []), history + [run]);
             i < |after.resources| && after.resources[i].mark.Some? && after.resources[i].place.organization == run.organization
    ensures var after := Exec(Tables([], []), history + [run]);
            after.resources[i].live <==> Claimed(after.links, i)
  {
    var before := Exec(Tables([], []), history);
    assert (history + [run])[..|history|] == history;
    ReachableTablesAreSound(history + [run]);
    var after := Exec(Tables([], []), history + [run]);
    if Claimed(after.links, i) {
      var l :| 0 <= l < |after.links| && after.links[l].live && after.links[l].place.resource == i;
      assert GoodClaim(after.links[l], after.resources);
    }
  }

  // ── one repository's claims ────────────────────────────────────────────────

  /** What a repository's live claims under its current key say: which resource, on which evidence. */
  ghost function LiveClaims(t: Tables, repository: string): set<(ResourcePlace, string)> {
    set l | 0 <= l < |t.links| && InScope(t.links[l], ScopeOf(repository), ResourceKeyFor(repository)) && t.links[l].place.resource < |t.resources|
      :: (t.resources[t.links[l].place.resource].place, t.links[l].mark.value.fingerprint)
  }

  ghost function WantedClaims(organization: string, repository: string,
                              findings: seq<ResourceFinding>): set<(ResourcePlace, string)>
  {
    set f | f in findings :: (PlaceOf(organization, repository, f), ResourceFingerprint(f))
  }

  /** Every live claim of the repository was last observed before the run started. */
  ghost predicate NoOverlap(t: Tables, repository: string, startedAt: int) {
    forall l :: 0 <= l < |t.links| && InScope(t.links[l], ScopeOf(repository), ResourceKeyFor(repository)) ==>
                  t.links[l].mark.value.lastSeen < startedAt
  }

  /** The tables after a write loop that recorded every finding, and the sweep that follows it. */
  function Swept(t: Tables, w: Writer, findings: seq<ResourceFinding>, startedAt: int): Tables {
    Tables(ResourcesAfter(t.resources, w, findings),
           Sweep(PutAll(t.links, LinkRows(t.resources, w, findings), ByMark), ScopeOf(w.repository),
                 ResourceKeyFor(w.repository), startedAt))
  }

  lemma SweptExactly(t: Tables, w: Writer, findings: seq<ResourceFinding>, startedAt: int)
    requires NoOverlap(t, w.repository, startedAt) && w.seenAt >= startedAt
    ensures var claims, after := LinkRows(t.resources, w, findings), Swept(t, w, findings, startedAt);
            && (forall c :: c in claims ==> Covered(after.links, c, ByMark, startedAt))
            && (forall l :: 0 <= l < |after.links| && InScope(after.links[l], ScopeOf(w.repository), ResourceKeyFor(w.repository)) ==>
                  exists c :: c in claims && Holds(after.links[l], c, ByMark))
  {
    var claims := LinkRows(t.resources, w, findings);
    assert claims[..|claims|] == claims;
    forall c | c in claims
      ensures Recent(c, ScopeOf(w.repository), ResourceKeyFor(w.repository), startedAt)
    {
      var j :| 0 <= j < |claims| && claims[j] == c;
      LinkRowAt(t.resources, w, findings, j);
    }
    var scope, key := ScopeOf(w.repository), ResourceKeyFor(w.repository);
    ReconciledExactly(t.links, claims, ByMark, scope, key, startedAt);
    assert forall l :: 0 <= l < |t.links| ==> !Recent(t.links[l], scope, key, startedAt);
    assert Swept(t, w, findings, startedAt).links == Reconciled(t.links, claims, |claims|, true, ByMark, scope, key,
                                                                startedAt);
  }

  /** What a written claim points at, and says, is wanted. */
  lemma WrittenClaimIsWanted(resources: seq<Resource>, w: Writer, findings: seq<ResourceFinding>, c: Claim)
    requires c in LinkRows(resources, w, findings)
    ensures var after := ResourcesAfter(resources, w, findings);
            && c.place.resource < |after| && c.mark.Some?
            && (after[c.place.resource].place, c.mark.value.fingerprint) in WantedClaims(w.organization, w.repository, findings)
  {
    WholePrefix(findings);
    var j :| 0 <= j < |findings| && LinkRows(resources, w, findings)[j] == c;
    LinkRowAt(resources, w, findings, j);
    LinkTarget(resources, w, findings, j, |findings|);
    assert findings[j] in findings;
  }

  lemma EveryLiveClaimIsWanted(t: Tables, w: Writer, findings: seq<ResourceFinding>, startedAt: int)
    requires NoOverlap(t, w.repository, startedAt) && w.seenAt >= startedAt
    ensures LiveClaims(Swept(t, w, findings, startedAt), w.repository) <= WantedClaims(w.organization, w.repository, findings)
  {
    hide WantedClaims, LinkRows, ResourcesAfter;
    var claims, after := LinkRows(t.resources, w, findings), Swept(t, w, findings, startedAt);
    SweptExactly(t, w, findings, startedAt);
    hide Sweep;
    forall l | 0 <= l < |after.links| && InScope(after.links[l], ScopeOf(w.repository), ResourceKeyFor(w.repository))
               && after.links[l].place.resource < |after.resources|
      ensures (after.resources[after.links[l].place.resource].place, after.links[l].mark.value.fingerprint)
              in WantedClaims(w.organization, w.repository, findings)
    {
      var c :| c in claims && Holds(after.links[l], c, ByMark);
      WrittenClaimIsWanted(t.resources, w, findings, c);
    }
  }

  lemma EveryWantedClaimIsLive(t: Tables, w: Writer, findings: seq<ResourceFinding>, startedAt: int)
    requires NoOverlap(t, w.repository, startedAt) && w.seenAt >= startedAt
    ensures WantedClaims(w.organization, w.repository, findings) <= LiveClaims(Swept(t, w, findings, startedAt), w.repository)
  {
    var claims, after := LinkRows(t.resources, w, findings), Swept(t, w, findings, startedAt);
    SweptExactly(t, w, findings, startedAt);
    assert findings[..|findings|] == findings;
    forall f | f in findings
      ensures (PlaceOf(w.organization, w.repository, f), ResourceFingerprint(f)) in LiveClaims(after, w.repository)
    {
      var j :| 0 <= j < |findings| && findings[j] == f;
      LinkRowAt(t.resources, w, findings, j);
      LinkTarget(t.resources, w, findings, j, |findings|);
      assert claims[j] in claims;
      CoveredClaimIsLive(after, claims[j], w.repository, startedAt);
    }
  }

  lemma CompletedFactIsSwept(t: Tables, organization: string, fact: ResourcesFact, hidden: set<string>,
                             startedAt: int, calls: nat)
    requires var outcome := ReconciledFact(t, organization, fact, hidden, startedAt, calls).1; outcome.Done? && !outcome.sweepSkipped
    ensures ReconciledFact(t, organization, fact, hidden, startedAt, calls).0
            == Swept(t, Writer(organization, fact.repository, startedAt + ONE_MILLISECOND),
                     Unsuppressed(fact.data, hidden), startedAt)
  {
    hide Sweep, ResourcesAfter, LinkRows, Unsuppressed, FullyRecorded, Reading;
    WholePrefix(Unsuppressed(fact.data, hidden));
  }

  /** A repository's own completed reconciliation leaves exactly the claims its unsuppressed findings make. */
  lemma FactConverges(t: Tables, organization: string, fact: ResourcesFact, hidden: set<string>, startedAt: int,
                      calls: nat)
    requires NoOverlap(t, fact.repository, startedAt)
    requires var outcome := ReconciledFact(t, organization, fact, hidden, startedAt, calls).1; outcome.Done? && !outcome.sweepSkipped
    ensures LiveClaims(ReconciledFact(t, organization, fact, hidden, startedAt, calls).0, fact.repository)
            == WantedClaims(organization, fact.repository, Unsuppressed(fact.data, hidden))
  {
    var w := Writer(organization, fact.repository, startedAt + ONE_MILLISECOND);
    var findings := Unsuppressed(fact.data, hidden);
    CompletedFactIsSwept(t, organization, fact, hidden, startedAt, calls);
    hide LiveClaims, WantedClaims, ReconciledFact, Swept, Unsuppressed;
    EveryLiveClaimIsWanted(t, w, findings, startedAt);
    EveryWantedClaimIsLive(t, w, findings, startedAt);
  }

  lemma CoveredClaimIsLive(t: Tables, c: Claim, repository: string, seen: int)
    requires Covered(t.links, c, ByMark, seen) && c.mark.Some? && c.mark.value.key == ResourceKeyFor(repository)
    requires c.place.repository == repository && c.place.resource < |t.resources|
    ensures (t.resources[c.place.resource].place, c.mark.value.fingerprint) in LiveClaims(t, repository)
  {
    var l :| 0 <= l < |t.links| && t.links[l].live && Same(t.links[l], c, ByMark) && SeenSince(t.links[l], ByMark, seen);
    assert InScope(t.links[l], ScopeOf(repository), ResourceKeyFor(repository));
  }

  /** Nothing but its own reconciliation changes a repository's claims. */
  ghost predicate KeepsClaimsOf(before: Tables, after: Tables, repository: string) {
    && |before.resources| <= |after.resources|
    && (forall i :: 0 <= i < |before.resources| ==> after.resources[i].place == before.resources[i].place)
    && KeepsLinksOf(before.links, after.links, repository)
  }

  /** Another repository's claims are the same rows in the two tables. */
  ghost predicate KeepsLinksOf(before: seq<Claim>, after: seq<Claim>, repository: string) {
    && |before| <= |after|
    && (forall l :: 0 <= l < |before| && before[l].place.repository == repository ==> after[l] == before[l])
    && (forall l :: 0 <= l < |before| && before[l].place.repository != repository ==> after[l].place.repository != repository)
    && (forall l :: |before| <= l < |after| ==> after[l].place.repository != repository)
  }

  /** The claims in scope are the same rows before and after. */
  lemma KeptClaimsAreTheSameRows(before: Tables, after: Tables, repository: string)
    requires KeepsClaimsOf(before, after, repository)
    ensures forall l :: 0 <= l < |before.links| && InScope(before.links[l], ScopeOf(repository), ResourceKeyFor(repository)) ==>
                          after.links[l] == before.links[l]
    ensures forall l :: 0 <= l < |after.links| && InScope(after.links[l], ScopeOf(repository), ResourceKeyFor(repository)) ==>
                          l < |before.links| && before.links[l] == after.links[l]
  {
  }

  lemma KeptClaimsDoNotOverlap(before: Tables, after: Tables, repository: string, startedAt: int)
    requires KeepsClaimsOf(before, after, repository) && NoOverlap(before, repository, startedAt)
    ensures NoOverlap(after, repository, startedAt)
  {
    hide KeepsClaimsOf;
    KeptClaimsAreTheSameRows(before, after, repository);
  }

  lemma KeptClaimsAreNoMore(before: Tables, after: Tables, repository: string)
    requires Sound(before) && KeepsClaimsOf(before, after, repository)
    ensures LiveClaims(after, repository) <= LiveClaims(before, repository)
  {
    KeptClaimsAreTheSameRows(before, after, repository);
    forall l | 0 <= l < |after.links| && InScope(after.links[l], ScopeOf(repository), ResourceKeyFor(repository))
               && after.links[l].place.resource < |after.resources|
      ensures (after.resources[after.links[l].place.resource].place, after.links[l].mark.value.fingerprint) in LiveClaims(before, repository)
    {
      assert before.links[l] == after.links[l] && GoodClaim(before.links[l], before.resources);
    }
  }

  lemma KeptClaimsAreNoFewer(before: Tables, after: Tables, repository: string)
    requires KeepsClaimsOf(before, after, repository)
    ensures LiveClaims(before, repository) <= LiveClaims(after, repository)
  {
    KeptClaimsAreTheSameRows(before, after, repository);
    forall l | 0 <= l < |before.links| && InScope(before.links[l], ScopeOf(repository), ResourceKeyFor(repository))
               && before.links[l].place.resource < |before.resources|
      ensures (before.resources[before.links[l].place.resource].place, before.links[l].mark.value.fingerprint) in LiveClaims(after, repository)
    {
      assert after.links[l] == before.links[l];
    }
  }

  lemma KeptClaimsSayTheSame(before: Tables, after: Tables, repository: string)
    requires Sound(before) && KeepsClaimsOf(before, after, repository)
    ensures LiveClaims(after, repository) == LiveClaims(before, repository)
  {
    hide LiveClaims, Sound, KeepsClaimsOf;
    KeptClaimsAreNoMore(before, after, repository);
    KeptClaimsAreNoFewer(before, after, repository);
  }

  lemma ClaimsKeptTwice(a: Tables, b: Tables, c: Tables, repository: string)
    requires KeepsClaimsOf(a, b, repository) && KeepsClaimsOf(b, c, repository)
    ensures KeepsClaimsOf(a, c, repository)
  {
  }

  lemma WrittenClaimsAreTheWriters(resources: seq<Resource>, w: Writer, findings: seq<ResourceFinding>)
    ensures forall c :: c in LinkRows(resources, w, findings) ==> c.live && c.place.repository == w.repository
  {
    var claims := LinkRows(resources, w, findings);
    forall j | 0 <= j < |claims|
      ensures claims[j].live && claims[j].place.repository == w.repository
    {
      LinkRowAt(resources, w, findings, j);
    }
  }

  lemma WritingKeepsOtherLinks(links: seq<Claim>, claims: seq<Claim>, writer: string, repository: string)
    requires writer != repository && forall c :: c in claims ==> c.live && c.place.repository == writer
    ensures KeepsLinksOf(links, PutAll(links, claims, ByMark), repository)
  {
    var written := PutAll(links, claims, ByMark);
    forall l | 0 <= l < |links|
      ensures written[l].place == links[l].place
      ensures links[l].place.repository == repository ==> written[l] == links[l]
    {
      PutAllKeepsIdentity(links, claims, ByMark, l);
      if links[l].place.repository == repository {
        PutAllFrame(links, claims, ByMark, l);
      }
    }
    forall l | |links| <= l < |written|
      ensures written[l].place.repository != repository
    {
      PutAllWritesNothingElse(links, claims, ByMark, l);
    }
  }

  lemma SweepingKeepsOtherLinks(before: seq<Claim>, links: seq<Claim>, writer: string, key: string, startedAt: int,
                                repository: string)
    requires writer != repository && KeepsLinksOf(before, links, repository)
    ensures KeepsLinksOf(before, Sweep(links, ScopeOf(writer), key, startedAt), repository)
  {
  }

  /** Writing keeps every resource in its place. */
  lemma WritingKeepsPlaces(resources: seq<Resource>, w: Writer, findings: seq<ResourceFinding>, m: nat)
    requires m <= |findings|
    ensures var after := ResourcesAfter(resources, w, findings[..m]);
            |resources| <= |after| && forall i :: 0 <= i < |resources| ==> after[i].place == resources[i].place
  {
    assert findings[..0] == [] && ResourcesAfter(resources, w, findings[..0]) == resources;
    ResourcesGrow(resources, w, findings, 0, m);
  }

  lemma FactKeepsOtherLinks(t: Tables, organization: string, fact: ResourcesFact, hidden: set<string>, startedAt: int,
                            calls: nat, repository: string)
    requires fact.repository != repository
    ensures KeepsLinksOf(t.links, ReconciledFact(t, organization, fact, hidden, startedAt, calls).0.links, repository)
  {
    if calls > 0 {
      var w := Writer(organization, fact.repository, startedAt + ONE_MILLISECOND);
      var findings := Unsuppressed(fact.data, hidden);
      var claims := LinkRows(t.resources, w, findings[..FullyRecorded(w, findings, calls - 1)]);
      hide LinkRows, FullyRecorded, Unsuppressed, Reading, KeepsLinksOf, Sweep, ResourcesAfter;
      WrittenClaimsAreTheWriters(t.resources, w, findings[..FullyRecorded(w, findings, calls - 1)]);
      WritingKeepsOtherLinks(t.links, claims, fact.repository, repository);
      SweepingKeepsOtherLinks(t.links, PutAll(t.links, claims, ByMark), fact.repository,
                              ResourceKeyFor(fact.repository), startedAt, repository);
    }
  }

  lemma FactKeepsPlaces(t: Tables, organization: string, fact: ResourcesFact, hidden: set<string>, startedAt: int,
                        calls: nat)
    ensures var after := ReconciledFact(t, organization, fact, hidden, startedAt, calls).0.resources;
            |t.resources| <= |after| && forall i :: 0 <= i < |t.resources| ==> after[i].place == t.resources[i].place
  {
    if calls > 0 {
      var w := Writer(organization, fact.repository, startedAt + ONE_MILLISECOND);
      var findings := Unsuppressed(fact.data, hidden);
      WritingKeepsPlaces(t.resources, w, findings, RecordedResources(w, findings, calls - 1));
    }
  }

  lemma FactKeepsOtherClaims(t: Tables, organization: string, fact: ResourcesFact, hidden: set<string>,
                             startedAt: int, calls: nat, repository: string)
    requires fact.repository != repository
    ensures KeepsClaimsOf(t, ReconciledFact(t, organization, fact, hidden, startedAt, calls).0, repository)
  {
    hide ReconciledFact;
    FactKeepsOtherLinks(t, organization, fact, hidden, startedAt, calls, repository);
    FactKeepsPlaces(t, organization, fact, hidden, startedAt, calls);
  }

  lemma NothingChanges(t: Tables, repository: string)
    ensures KeepsClaimsOf(t, t, repository)
  {
  }

  lemma {:induction false} FactsKeepOtherClaims(t: Tables, organization: string, input: RunInput, startedAt: int,
                                                a: nat, b: nat, repository: string)
    requires a <= b <= |input.facts|
    requires forall n :: a <= n < b ==> input.facts[n].repository != repository
    ensures KeepsClaimsOf(ReconciledFacts(t, organization, input, startedAt, a).0,
                          ReconciledFacts(t, organization, input, startedAt, b).0, repository)
    decreases b
  {
    hide KeepsClaimsOf, ReconciledFact;
    NothingChanges(ReconciledFacts(t, organization, input, startedAt, b).0, repository);
    if a < b {
      FactsKeepOtherClaims(t, organization, input, startedAt, a, b - 1, repository);
      var fact, before := input.facts[b - 1], ReconciledFacts(t, organization, input, startedAt, b - 1).0;
      FactKeepsOtherClaims(before, organization, fact, input.hidden(fact.repository), startedAt, input.calls(b - 1),
                           repository);
      ClaimsKeptTwice(ReconciledFacts(t, organization, input, startedAt, a).0, before,
                      ReconciledFacts(t, organization, input, startedAt, b).0, repository);
    }
  }

  ghost predicate OneFactPerRepository(facts: seq<ResourcesFact>) {
    forall i, j :: 0 <= i < |facts| && 0 <= j < |facts| && facts[i].repository == facts[j].repository ==> i == j
  }

  /**
   * Every repository converges alone: whatever happens to the other repositories in the run — incomplete facts,
   * storage failures — a repository whose own reconciliation completes ends with exactly the claims it makes.
   */
  lemma EveryRepositoryConvergesAlone(t: Tables, organization: string, input: RunInput, startedAt: int, k: nat)
    requires Sound(t) && OneFactPerRepository(input.facts) && k < |input.facts|
    requires var fact := input.facts[k];
             var outcome := ReconciledFact(t, organization, fact, input.hidden(fact.repository), startedAt, input.calls(k)).1;
             outcome.Done? && !outcome.sweepSkipped
    requires NoOverlap(t, input.facts[k].repository, startedAt)
    ensures var fact := input.facts[k];
            LiveClaims(ReconciledRun(t, organization, input, startedAt), fact.repository)
            == WantedClaims(organization, fact.repository, Unsuppressed(fact.data, input.hidden(fact.repository)))
  {
    hide LiveClaims, WantedClaims, Sound, NoOverlap, ReconciledRun;
    var fact := input.facts[k];
    var before := ReconciledFacts(t, organization, input, startedAt, k).0;
    OutcomeIsItsOwn(t, before, organization, fact, input.hidden(fact.repository), startedAt, input.calls(k));
    UnchangedUntil(t, organization, input, startedAt, k);
    FactConverges(before, organization, fact, input.hidden(fact.repository), startedAt, input.calls(k));
    UnchangedSince(t, organization, input, startedAt, k);
  }

  /** How a reconciliation ends does not depend on what the tables held. */
  lemma OutcomeIsItsOwn(t: Tables, u: Tables, organization: string, fact: ResourcesFact, hidden: set<string>,
                        startedAt: int, calls: nat)
    ensures ReconciledFact(t, organization, fact, hidden, startedAt, calls).1 == ReconciledFact(u, organization, fact, hidden, startedAt, calls).1
  {
    hide Written, Unsuppressed, FullyRecorded, Reading, Sweep;
  }

  lemma UnchangedUntil(t: Tables, organization: string, input: RunInput, startedAt: int, k: nat)
    requires Sound(t) && OneFactPerRepository(input.facts) && k < |input.facts|
    requires NoOverlap(t, input.facts[k].repository, startedAt)
    ensures NoOverlap(ReconciledFacts(t, organization, input, startedAt, k).0, input.facts[k].repository, startedAt)
  {
    FactsKeepOtherClaims(t, organization, input, startedAt, 0, k, input.facts[k].repository);
    KeptClaimsDoNotOverlap(t, ReconciledFacts(t, organization, input, startedAt, k).0, input.facts[k].repository,
                           startedAt);
  }

  lemma RetiringKeepsClaims(t: Tables, organization: string, repository: string)
    ensures KeepsClaimsOf(t, Retired(t, organization), repository)
  {
  }

  lemma UnchangedSince(t: Tables, organization: string, input: RunInput, startedAt: int, k: nat)
    requires Sound(t) && OneFactPerRepository(input.facts) && k < |input.facts|
    ensures LiveClaims(ReconciledRun(t, organization, input, startedAt), input.facts[k].repository)
            == LiveClaims(ReconciledFacts(t, organization, input, startedAt, k + 1).0, input.facts[k].repository)
  {
    hide Sound, KeepsClaimsOf, LiveClaims, ReconciledFact, Retired;
    var repository := input.facts[k].repository;
    var after := ReconciledFacts(t, organization, input, startedAt, k + 1).0;
    var end := ReconciledFacts(t, organization, input, startedAt, |input.facts|).0;
    FactsKeepSound(t, organization, input, startedAt, k + 1);
    FactsKeepOtherClaims(t, organization, input, startedAt, k + 1, |input.facts|, repository);
    KeptClaimsSayTheSame(after, end, repository);
    FactsKeepSound(t, organization, input, startedAt, |input.facts|);
    RetiringKeepsClaims(end, organization, repository);
    KeptClaimsSayTheSame(end, Retired(end, organization), repository);
  }

  /** The claim is still there, live and on the same resource. */
  predicate StillClaims(before: Tables, after: Tables, l: nat) {
    && l < |before.links| && l < |after.links|
    && after.links[l].live && after.links[l].place == before.links[l].place
  }

  lemma ClaimStays(t: Tables, after: Tables, repository: string, l: nat)
    requires KeepsClaimsOf(t, after, repository)
    requires l < |t.links| && t.links[l].live && t.links[l].place.repository == repository
    ensures StillClaims(t, after, l)
  {
  }

  lemma RunKeepsLinks(t: Tables, organization: string, input: RunInput, startedAt: int)
    ensures ReconciledRun(t, organization, input, startedAt).links
            == ReconciledFacts(t, organization, input, startedAt, |input.facts|).0.links
  {
  }

  /** A repository whose fact is incomplete, or whose reconciliation fails, loses no claim in the run. */
  lemma IncompleteFactRetractsNothing(t: Tables, organization: string, input: RunInput, startedAt: int, k: nat, l: nat)
    requires OneFactPerRepository(input.facts) && k < |input.facts|
    requires var fact := input.facts[k];
             || !Reading(fact).complete
             || ReconciledFact(t, organization, fact, input.hidden(fact.repository), startedAt, input.calls(k)).1.Failed?
    requires l < |t.links| && t.links[l].live && t.links[l].place.repository == input.facts[k].repository
    ensures var after := ReconciledRun(t, organization, input, startedAt); l < |after.links| && after.links[l].live
  {
    hide KeepsClaimsOf, ReconciledFact, ReconciledRun;
    var fact := input.facts[k];
    var before := ReconciledFacts(t, organization, input, startedAt, k).0;
    var after := ReconciledFacts(t, organization, input, startedAt, k + 1).0;
    var end := ReconciledFacts(t, organization, input, startedAt, |input.facts|).0;
    FactsKeepOtherClaims(t, organization, input, startedAt, 0, k, fact.repository);
    KeptByNothing(t, organization, input, startedAt);
    ClaimStays(t, before, fact.repository, l);
    OutcomeIsItsOwn(t, before, organization, fact, input.hidden(fact.repository), startedAt, input.calls(k));
    FactRetractsNothing(before, organization, fact, input.hidden(fact.repository), startedAt, input.calls(k), l);
    FactsKeepOtherClaims(t, organization, input, startedAt, k + 1, |input.facts|, fact.repository);
    ClaimStays(after, end, fact.repository, l);
    RunKeepsLinks(t, organization, input, startedAt);
  }

  lemma KeptByNothing(t: Tables, organization: string, input: RunInput, startedAt: int)
    ensures ReconciledFacts(t, organization, input, startedAt, 0).0 == t
  {
  }

  lemma FactRetractsNothing(t: Tables, organization: string, fact: ResourcesFact, hidden: set<string>, startedAt: int,
                            calls: nat, l: nat)
    requires !Reading(fact).complete || ReconciledFact(t, organization, fact, hidden, startedAt, calls).1.Failed?
    requires l < |t.links| && t.links[l].live
    ensures StillClaims(t, ReconciledFact(t, organization, fact, hidden, startedAt, calls).0, l)
  {
    if calls > 0 {
      var w := Writer(organization, fact.repository, startedAt + ONE_MILLISECOND);
      var findings := Unsuppressed(fact.data, hidden);
      var claims := LinkRows(t.resources, w, findings[..FullyRecorded(w, findings, calls - 1)]);
      NoSweepNoRetraction(t.links, claims, ByMark);
      PutAllKeepsIdentity(t.links, claims, ByMark, l);
    }
  }
}
