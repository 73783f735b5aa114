/** What a repository's claims and the resources they name say after a run. */
module ResourceContent {
  import opened Wrappers
  import opened DerivedRows
  import opened Facts
  import opened Fingerprints
  import opened Collector
  import opened Relationships
  import opened Resources
  import opened ResourceProperties
  import opened ResourceRuns

  function Print(f: ResourceFinding): string {
    Fingerprint([f.ruleId, f.locator.engine, f.locator.host, f.locator.namespace, f.displayName])
  }

  /** The place is the finding's: its repository's own when it is scoped, the located instance otherwise. */
  predicate StandsFor(place: ResourcePlace, organization: string, repository: string, f: ResourceFinding) {
    && place.organization == organization && place.engine == f.locator.engine && place.Scoped? == f.scoped
    && (f.scoped ==> place.repository == repository && place.displayName == f.displayName)
    && (!f.scoped ==> && place.host == f.locator.host && place.namespace == f.locator.namespace
                      && place.port == match f.locator.port case Some(p) => p case None => -1)
  }

  lemma PlaceIff(place: ResourcePlace, organization: string, repository: string, f: ResourceFinding)
    ensures StandsFor(place, organization, repository, f) <==> place == PlaceOf(organization, repository, f)
  {
  }

  /** Equal ports, where a missing one and -1 count as one. */
  predicate SamePort(a: Option<int>, b: Option<int>) {
    a == b || (a in {None, Some(-1)} && b in {None, Some(-1)})
  }

  predicate SamePlace(f: ResourceFinding, g: ResourceFinding) {
    && f.scoped == g.scoped && f.locator.engine == g.locator.engine
    && (f.scoped ==> f.displayName == g.displayName)
    && (!f.scoped ==> && f.locator.host == g.locator.host && f.locator.namespace == g.locator.namespace
                      && SamePort(f.locator.port, g.locator.port))
  }

  /** Two findings of a repository are about one resource exactly when they agree on these parts of the locator. */
  lemma PlacesAgreeIff(organization: string, repository: string, f: ResourceFinding, g: ResourceFinding)
    ensures PlaceOf(organization, repository, f) == PlaceOf(organization, repository, g) <==> SamePlace(f, g)
  {
  }

  /** The claim is the repository's, made by the run stamping `seenAt`, and says what the finding says. */
  predicate LinkSays(link: Claim, repository: string, f: ResourceFinding, seenAt: int) {
    && link.live && link.place.repository == repository
    && link.content.displayName == f.displayName && link.content.ruleId == f.ruleId
    && link.content.confidence == f.confidence && link.content.paths == f.evidence
    && link.mark.Some? && link.mark.value.key == "resource:v1:repo/" + repository
    && link.mark.value.fingerprint == Print(f) && link.mark.value.lastSeen == seenAt
  }

  /** It says so of a live resource in the finding's place. */
  predicate ClaimSays(t: Tables, l: nat, organization: string, repository: string, f: ResourceFinding, seenAt: int) {
    && l < |t.links| && LinkSays(t.links[l], repository, f, seenAt)
    && var id := t.links[l].place.resource;
    && id < |t.resources| && t.resources[id].live && StandsFor(t.resources[id].place, organization, repository, f)
  }

  /** The `n`-th finding is not hidden, and none after it that is not makes the same claim. */
  ghost predicate LastOfItsClaim(data: seq<ResourceFinding>, hidden: set<string>, n: nat) {
    && n < |data| && Print(data[n]) !in hidden
    && forall m :: n < m < |data| && Print(data[m]) !in hidden ==> !(SamePlace(data[m], data[n]) && Print(data[m]) == Print(data[n]))
  }

  lemma LastLike(data: seq<ResourceFinding>, hidden: set<string>, f: ResourceFinding) returns (n: nat)
    requires f in data && Print(f) !in hidden
    ensures n < |data| && LastOfItsClaim(data, hidden, n) && SamePlace(data[n], f) && Print(data[n]) == Print(f)
  {
    hide Print;
    var k :| 0 <= k < |data| && data[k] == f;
    n := |data| - 1;
    while !(SamePlace(data[n], f) && Print(data[n]) == Print(f))
      invariant k <= n < |data|
      invariant forall m :: n < m < |data| ==> !(SamePlace(data[m], f) && Print(data[m]) == Print(f))
      decreases n
    {
      n := n - 1;
    }
  }

  lemma LaterClaimsDiffer(resources: seq<Resource>, w: Writer, findings: seq<ResourceFinding>, at: nat, m: nat)
    requires at < |findings| && m < |findings|
    requires Same(LinkRows(resources, w, findings)[m], LinkRows(resources, w, findings)[at], ByMark)
    ensures SamePlace(findings[m], findings[at]) && Print(findings[m]) == Print(findings[at])
  {
    hide ResourcesAfter, SamePlace, Print, PlaceOf, ResourceIdOf;
    LinkRowAt(resources, w, findings, at);
    LinkRowAt(resources, w, findings, m);
    LinkTarget(resources, w, findings, at, |findings|);
    LinkTarget(resources, w, findings, m, |findings|);
    PlacesAgreeIff(w.organization, w.repository, findings[m], findings[at]);
    PrintIs(findings[m]);
    PrintIs(findings[at]);
  }

  lemma PrintIs(f: ResourceFinding)
    ensures ResourceFingerprint(f) == Print(f)
  {
  }

  lemma HeldLinkSays(link: Claim, w: Writer, f: ResourceFinding, id: nat)
    requires Holds(link, LinkRow(w, f, id), ByMark)
    ensures LinkSays(link, w.repository, f, w.seenAt) && link.place.resource == id
  {
  }

  lemma SweepKeepsRecent(links: seq<Claim>, repository: string, startedAt: int, l: nat)
    requires l < |links| && links[l].mark.Some? && links[l].mark.value.lastSeen >= startedAt
    ensures Sweep(links, ScopeOf(repository), ResourceKeyFor(repository), startedAt)[l] == links[l]
  {
  }

  lemma LinkAtSays(t: Tables, w: Writer, findings: seq<ResourceFinding>, startedAt: int, at: nat, l: nat)
    requires at < |findings| && w.seenAt >= startedAt
    requires var links := PutAll(t.links, LinkRows(t.resources, w, findings), ByMark);
             l < |links| && Holds(links[l], LinkRows(t.resources, w, findings)[at], ByMark)
    ensures ClaimSays(Swept(t, w, findings, startedAt), l, w.organization, w.repository, findings[at], w.seenAt)
  {
    hide ResourcesAfter, StandsFor, PlaceOf, ResourceIdOf, LinkRows, LinkRow, PutAll, Sweep, Holds, Print, ResourceKeyFor;
    var links := PutAll(t.links, LinkRows(t.resources, w, findings), ByMark);
    var id := ResourceIdOf(t.resources, w, findings[..at], findings[at]);
    WholePrefix(findings);
    LinkRowAt(t.resources, w, findings, at);
    LinkTarget(t.resources, w, findings, at, |findings|);
    HeldLinkSays(links[l], w, findings[at], id);
    SweepKeepsRecent(links, w.repository, startedAt, l);
    PlaceIff(ResourcesAfter(t.resources, w, findings)[id].place, w.organization, w.repository, findings[at]);
  }

  lemma LastClaimIsWritten(t: Tables, w: Writer, data: seq<ResourceFinding>, hidden: set<string>, startedAt: int,
                           n: nat)
    returns (l: nat)
    requires LastOfItsClaim(data, hidden, n) && w.seenAt >= startedAt
    ensures n < |data| && ClaimSays(Swept(t, w, Unsuppressed(data, hidden), startedAt), l, w.organization,
                                    w.repository, data[n], w.seenAt)
  {
    hide LinkRows, ClaimSays, Swept, SamePlace, Print, ResourceFingerprint, Same;
    var findings := Unsuppressed(data, hidden);
    var at := FilterPlace(f => ResourceFingerprint(f) !in hidden, data, n) by { PrintIs(data[n]); }
    var claims := LinkRows(t.resources, w, findings);
    forall m | at < m < |claims|
      ensures !Same(claims[m], claims[at], ByMark)
    {
      var k :| n < k < |data| && ResourceFingerprint(data[k]) !in hidden && findings[m] == data[k];
      PrintIs(data[k]);
      if Same(claims[m], claims[at], ByMark) {
        LaterClaimsDiffer(t.resources, w, findings, at, m);
      }
    }
    LinkRowAt(t.resources, w, findings, at);
    l := LastWriteHolds(t.links, claims, ByMark, at);
    LinkAtSays(t, w, findings, startedAt, at, l);
  }

  predicate Completes(outcome: Outcome) {
    outcome.Done? && !outcome.sweepSkipped
  }

  /** The finding a live claim of the repository was written for. */
  lemma FindingBehindClaim(t: Tables, w: Writer, findings: seq<ResourceFinding>, startedAt: int, l: nat)
    returns (f: ResourceFinding)
    requires ResourceProperties.NoOverlap(t, w.repository, startedAt) && w.seenAt >= startedAt
    requires var links := Swept(t, w, findings, startedAt).links;
             l < |links| && InScope(links[l], ScopeOf(w.repository), ResourceKeyFor(w.repository))
    ensures f in findings
    ensures ClaimSays(Swept(t, w, findings, startedAt), l, w.organization, w.repository, f, w.seenAt)
  {
    hide LinkRows, ResourcesAfter, ClaimSays;
    var claims := LinkRows(t.resources, w, findings);
    SweptExactly(t, w, findings, startedAt);
    var c :| c in claims && Holds(Swept(t, w, findings, startedAt).links[l], c, ByMark);
    var j :| 0 <= j < |claims| && claims[j] == c;
    f := findings[j];
    SweepChangesNoMark(t.links, claims, w.repository, startedAt, l);
    LinkAtSays(t, w, findings, startedAt, j, l);
  }

  lemma SweepChangesNoMark(links: seq<Claim>, claims: seq<Claim>, repository: string, startedAt: int, l: nat)
    requires var swept := Sweep(PutAll(links, claims, ByMark), ScopeOf(repository), ResourceKeyFor(repository),
                                startedAt);
             l < |swept| && swept[l].live
    ensures Sweep(PutAll(links, claims, ByMark), ScopeOf(repository), ResourceKeyFor(repository), startedAt)[l]
            == PutAll(links, claims, ByMark)[l]
  {
  }

  /** Two claims that say the same of one place are one claim. */
  lemma SameClaimOnce(t: Tables, organization: string, repository: string, a: nat, b: nat, f: ResourceFinding,
                      g: ResourceFinding, seenAt: int)
    requires Sound(t) && ClaimSays(t, a, organization, repository, f, seenAt) && ClaimSays(t, b, organization, repository, g, seenAt)
    requires SamePlace(f, g) && Print(f) == Print(g)
    ensures a == b
  {
    var x, y := t.links[a].place.resource, t.links[b].place.resource;
    PlaceIff(t.resources[x].place, organization, repository, f);
    PlaceIff(t.resources[y].place, organization, repository, g);
    PlacesAgreeIff(organization, repository, f, g);
    hide Print, StandsFor, SamePlace, PlaceOf;
    assert Same(t.resources[x], t.resources[y], ByPlaceKeepingMark);
    assert Same(t.links[a], t.links[b], ByMark);
  }

  /** A repository's completed reconciliation leaves live claims that say what its last findings say, and no others. */
  lemma EveryLiveClaimSaysItsLast(t: Tables, organization: string, fact: ResourcesFact, hidden: set<string>,
                                  startedAt: int, calls: nat, l: nat)
    returns (n: nat)
    requires Sound(t) && ResourceProperties.NoOverlap(t, fact.repository, startedAt)
    requires Completes(ReconciledFact(t, organization, fact, hidden, startedAt, calls).1)
    requires var links := ReconciledFact(t, organization, fact, hidden, startedAt, calls).0.links;
             l < |links| && InScope(links[l], ScopeOf(fact.repository), ResourceKeyFor(fact.repository))
    ensures n < |fact.data| && LastOfItsClaim(fact.data, hidden, n)
    ensures ClaimSays(ReconciledFact(t, organization, fact, hidden, startedAt, calls).0, l, organization,
                      fact.repository, fact.data[n], startedAt + ONE_MILLISECOND)
  {
    hide ReconciledFact, Swept, ClaimSays, LastOfItsClaim, Sound, ResourceProperties.NoOverlap, SamePlace, Print, ResourceFingerprint;
    var w := Writer(organization, fact.repository, startedAt + ONE_MILLISECOND);
    CompletedFactIsSwept(t, organization, fact, hidden, startedAt, calls);
    FactKeepsSound(t, organization, fact, hidden, startedAt, calls);
    var f := FindingBehindClaim(t, w, Unsuppressed(fact.data, hidden), startedAt, l);
    PrintIs(f);
    n := LastLike(fact.data, hidden, f);
    var k := LastClaimIsWritten(t, w, fact.data, hidden, startedAt, n);
    SameClaimOnce(ReconciledFact(t, organization, fact, hidden, startedAt, calls).0, organization, fact.repository, k,
                  l,
                  fact.data[n], f, startedAt + ONE_MILLISECOND);
  }

  // ── over a whole run ───────────────────────────────────────────────────────

  function AfterRun(history: seq<RunEvent>, run: RunEvent): Tables {
    ReconciledRun(Exec(Tables([], []), history), run.organization, run.input, run.startedAt)
  }

  /** What the repository's own reconciliation left, the rest of the run keeps. */
  lemma OwnClaimsOnly(history: seq<RunEvent>, run: RunEvent, k: nat)
    requires OneFactPerRepository(run.input.facts) && k < |run.input.facts|
    ensures var t, repository := Exec(Tables([], []), history), run.input.facts[k].repository;
            && KeepsClaimsOf(t, AfterFacts(t, run, k), repository) && Sound(AfterFacts(t, run, k))
            && KeepsClaimsOf(AtFact(AfterFacts(t, run, k), run, k).0, AfterRun(history, run), repository)
            && Sound(AfterRun(history, run))
  {
    hide KeepsClaimsOf, ReconciledFact, Sound, Retired, ResourceProperties.NoOverlap;
    var t, repository := Exec(Tables([], []), history), run.input.facts[k].repository;
    ReachableTablesAreSound(history);
    FactsKeepSound(t, run.organization, run.input, run.startedAt, k);
    FactsKeepSound(t, run.organization, run.input, run.startedAt, |run.input.facts|);
    FactsKeepOtherClaims(t, run.organization, run.input, run.startedAt, 0, k, repository);
    FactsKeepOtherClaims(t, run.organization, run.input, run.startedAt, k + 1, |run.input.facts|, repository);
    var mid, end := AtFact(AfterFacts(t, run, k), run, k).0, AfterFacts(t, run, |run.input.facts|);
    RetiringKeepsClaims(end, run.organization, repository);
    RetiringKeepsSound(end, run.organization);
    ClaimsKeptTwice(mid, end, Retired(end, run.organization), repository);
  }

  lemma SaysStill(before: Tables, after: Tables, l: nat, organization: string, repository: string, f: ResourceFinding,
                  seenAt: int)
    requires KeepsClaimsOf(before, after, repository) && Sound(after) && ClaimSays(before, l, organization, repository, f, seenAt)
    ensures ClaimSays(after, l, organization, repository, f, seenAt)
  {
    hide LinkSays, StandsFor;
    assert after.links[l] == before.links[l] by { LinkIsTheRepositorys(before, l, organization, repository, f, seenAt); }
    LinkIsTheRepositorys(before, l, organization, repository, f, seenAt);
    assert GoodClaim(after.links[l], after.resources);
  }

  lemma LinkIsTheRepositorys(t: Tables, l: nat, organization: string, repository: string, f: ResourceFinding,
                             seenAt: int)
    requires ClaimSays(t, l, organization, repository, f, seenAt)
    ensures t.links[l].live && t.links[l].place.repository == repository
  {
  }

  /**
   * After any history: a repository whose reconciliation completes, in a run started more than a millisecond after
   * every earlier one that read it, ends the run with live claims each of which says what its last finding of that
   * resource under that rule says, of a live resource in the finding's place.
   */
  lemma EveryClaimOfTheRunSays(history: seq<RunEvent>, run: RunEvent, k: nat, l: nat) returns (n: nat)
    requires OneFactPerRepository(run.input.facts) && k < |run.input.facts|
    requires Spaced(history, run.input.facts[k].repository, run.startedAt)
    requires Completes(AtFact(AfterFacts(Exec(Tables([], []), history), run, k), run, k).1)
    requires var fact, links := run.input.facts[k], AfterRun(history, run).links;
             l < |links| && InScope(links[l], ScopeOf(fact.repository), ResourceKeyFor(fact.repository))
    ensures var fact := run.input.facts[k];
            && LastOfItsClaim(fact.data, run.input.hidden(fact.repository), n)
            && ClaimSays(AfterRun(history, run), l, run.organization, fact.repository, fact.data[n],
                         run.startedAt + ONE_MILLISECOND)
  {
    hide ReconciledFact, AfterFacts, AfterRun, KeepsClaimsOf, Sound, ResourceProperties.NoOverlap, Spaced, LastOfItsClaim, ClaimSays;
    var t, fact := Exec(Tables([], []), history), run.input.facts[k];
    var before := AfterFacts(t, run, k);
    var mid := AtFact(before, run, k).0;
    OwnClaimsOnly(history, run, k);
    SpacedRunsDoNotOverlap(history, fact.repository, run.startedAt);
    KeptClaimsDoNotOverlap(t, before, fact.repository, run.startedAt);
    KeptClaimsAreTheSameRows(mid, AfterRun(history, run), fact.repository);
    n := EveryLiveClaimSaysItsLast(before, run.organization, fact, run.input.hidden(fact.repository), run.startedAt,
                                   run.input.calls(k), l);
    SaysStill(mid, AfterRun(history, run), l, run.organization, fact.repository, fact.data[n],
              run.startedAt + ONE_MILLISECOND);
  }

  /** And for each such finding some live claim does. */
  lemma EveryFindingOfTheRunIsSaid(history: seq<RunEvent>, run: RunEvent, k: nat, n: nat) returns (l: nat)
    requires OneFactPerRepository(run.input.facts) && k < |run.input.facts|
    requires Completes(AtFact(AfterFacts(Exec(Tables([], []), history), run, k), run, k).1)
    requires LastOfItsClaim(run.input.facts[k].data, run.input.hidden(run.input.facts[k].repository), n)
    ensures var fact := run.input.facts[k];
            ClaimSays(AfterRun(history, run), l, run.organization, fact.repository, fact.data[n],
                      run.startedAt + ONE_MILLISECOND)
  {
    hide ReconciledFact, AfterFacts, AfterRun, KeepsClaimsOf, Sound, LastOfItsClaim, ClaimSays, Swept;
    var t, fact := Exec(Tables([], []), history), run.input.facts[k];
    var before, hidden := AfterFacts(t, run, k), run.input.hidden(fact.repository);
    var mid := AtFact(before, run, k).0;
    var w := Writer(run.organization, fact.repository, run.startedAt + ONE_MILLISECOND);
    OwnClaimsOnly(history, run, k);
    CompletedFactIsSwept(before, run.organization, fact, hidden, run.startedAt, run.input.calls(k));
    l := LastClaimIsWritten(before, w, fact.data, hidden, run.startedAt, n);
    SaysStill(mid, AfterRun(history, run), l, run.organization, fact.repository, fact.data[n], w.seenAt);
  }

  // ── the resources themselves ───────────────────────────────────────────────

  /** The `n`-th finding is not hidden, and none after it that is not is about the same resource. */
  ghost predicate LastOfItsPlace(data: seq<ResourceFinding>, hidden: set<string>, n: nat) {
    && n < |data| && Print(data[n]) !in hidden
    && forall m :: n < m < |data| && Print(data[m]) !in hidden ==> !SamePlace(data[m], data[n])
  }

  /**
   * A completed reconciliation leaves a live resource in the place of each finding, which says what the last one
   * there says.
   */
  lemma ResourceSaysItsLast(t: Tables, organization: string, fact: ResourcesFact, hidden: set<string>, startedAt: int,
                            calls: nat, n: nat)
    returns (i: nat)
    requires Completes(ReconciledFact(t, organization, fact, hidden, startedAt, calls).1)
    requires LastOfItsPlace(fact.data, hidden, n)
    ensures var after, f := ReconciledFact(t, organization, fact, hidden, startedAt, calls).0.resources, fact.data[n];
            && i < |after| && after[i].live && StandsFor(after[i].place, organization, fact.repository, f)
            && after[i].content.displayName == f.displayName && after[i].content.ruleId == f.ruleId
            && after[i].content.confidence == f.confidence && after[i].content.paths == f.evidence
  {
    hide ReconciledFact, SamePlace, Print, ResourceFingerprint, PlaceOf, StandsFor, LinkRows;
    var w := Writer(organization, fact.repository, startedAt + ONE_MILLISECOND);
    var findings := Unsuppressed(fact.data, hidden);
    CompletedFactIsSwept(t, organization, fact, hidden, startedAt, calls);
    var at := FilterPlace(f => ResourceFingerprint(f) !in hidden, fact.data, n) by { PrintIs(fact.data[n]); }
    var claims := ResourceRows(w, findings);
    forall m | at < m < |claims|
      ensures !Same(claims[m], claims[at], ByPlaceKeepingMark)
    {
      var k :| n < k < |fact.data| && ResourceFingerprint(fact.data[k]) !in hidden && findings[m] == fact.data[k];
      PrintIs(fact.data[k]);
      PlacesAgreeIff(organization, fact.repository, fact.data[k], fact.data[n]);
    }
    i := LastWriteHolds(t.resources, claims, ByPlaceKeepingMark, at);
    PlaceIff(claims[at].place, organization, fact.repository, fact.data[n]);
  }

  /**
   * Rows stay in their place; a person's stays unmarked and, if it was live, live; and another organization's is the
   * same row.
   */
  ghost predicate LeavesOthers(before: seq<Resource>, after: seq<Resource>, organization: string) {
    && |before| <= |after|
    && forall i :: 0 <= i < |before| ==>
                     && after[i].place == before[i].place
                     && (before[i].mark.None? ==> after[i].mark.None? && (before[i].live ==> after[i].live))
                     && (before[i].place.organization != organization ==> after[i] == before[i])
  }

  lemma LeavesOthersTwice(a: seq<Resource>, b: seq<Resource>, c: seq<Resource>, organization: string)
    requires LeavesOthers(a, b, organization) && LeavesOthers(b, c, organization)
    ensures LeavesOthers(a, c, organization)
  {
  }

  lemma OneFindingLeavesOthers(resources: seq<Resource>, w: Writer, f: ResourceFinding)
    ensures LeavesOthers(resources, Put(resources, ResourceRow(w, f), ByPlaceKeepingMark), w.organization)
  {
    forall i | 0 <= i < |resources| {
      PutKeepsIdentity(resources, ResourceRow(w, f), ByPlaceKeepingMark, i);
    }
  }

  lemma {:induction false} FindingsLeaveOthers(resources: seq<Resource>, w: Writer, findings: seq<ResourceFinding>, n: nat)
    requires n <= |findings|
    ensures LeavesOthers(resources, ResourcesAfter(resources, w, findings[..n]), w.organization)
  {
    if n > 0 {
      hide LeavesOthers, ResourcesAfter, ResourceRow;
      FindingsLeaveOthers(resources, w, findings, n - 1);
      var before := ResourcesAfter(resources, w, findings[..n - 1]);
      ResourcesStep(resources, w, findings, n - 1);
      OneFindingLeavesOthers(before, w, findings[n - 1]);
      LeavesOthersTwice(resources, before, ResourcesAfter(resources, w, findings[..n]), w.organization);
    }
  }

  lemma FactLeavesOthers(t: Tables, organization: string, fact: ResourcesFact, hidden: set<string>, startedAt: int,
                         calls: nat)
    ensures LeavesOthers(t.resources, ReconciledFact(t, organization, fact, hidden, startedAt, calls).0.resources, organization)
  {
    if calls > 0 {
      var w := Writer(organization, fact.repository, startedAt + ONE_MILLISECOND);
      var findings := Unsuppressed(fact.data, hidden);
      FindingsLeaveOthers(t.resources, w, findings, RecordedResources(w, findings, calls - 1));
    }
  }

  lemma {:induction false} FactsLeaveOthers(t: Tables, organization: string, input: RunInput, startedAt: int, n: nat)
    requires n <= |input.facts|
    ensures LeavesOthers(t.resources, ReconciledFacts(t, organization, input, startedAt, n).0.resources, organization)
  {
    hide ReconciledFact;
    if n > 0 {
      var before, fact := ReconciledFacts(t, organization, input, startedAt, n - 1).0, input.facts[n - 1];
      FactsLeaveOthers(t, organization, input, startedAt, n - 1);
      FactLeavesOthers(before, organization, fact, input.hidden(fact.repository), startedAt, input.calls(n - 1));
      LeavesOthersTwice(t.resources, before.resources, ReconciledFacts(t, organization, input, startedAt, n).0.resources, organization);
    }
  }

  /** No run retires or takes over a resource that a person declared, nor touches one of another organization. */
  lemma RunLeavesOthers(t: Tables, organization: string, input: RunInput, startedAt: int)
    ensures LeavesOthers(t.resources, ReconciledRun(t, organization, input, startedAt).resources, organization)
  {
    hide ReconciledFacts;
    var end := ReconciledFacts(t, organization, input, startedAt, |input.facts|).0;
    FactsLeaveOthers(t, organization, input, startedAt, |input.facts|);
    assert LeavesOthers(end.resources, Retired(end, organization).resources, organization);
    LeavesOthersTwice(t.resources, end.resources, Retired(end, organization).resources, organization);
  }

  // ── when a reconciliation completes ────────────────────────────────────────

  lemma {:induction false} AllRecordedIff(w: Writer, findings: seq<ResourceFinding>, calls: nat)
    ensures FullyRecorded(w, findings, calls) == |findings|
            <==> 2 * |findings| <= calls && forall k :: 0 <= k < |findings| ==> Records(w, findings[k])
  {
    if findings != [] {
      var front := findings[..|findings| - 1];
      AllRecordedIff(w, front, calls);
      assert forall k :: 0 <= k < |front| ==> front[k] == findings[k];
    }
  }

  /** The tables accept a finding that names an engine, with a confidence between nothing and certainty. */
  predicate Acceptable(f: ResourceFinding) {
    f.locator.engine != "" && 0.0 <= f.confidence <= 1.0
  }

  lemma RecordsIff(w: Writer, f: ResourceFinding)
    requires w.organization != "" && w.repository != ""
    ensures Records(w, f) <==> Acceptable(f)
  {
    assert |ResourceKeyFor(w.repository)| > 0;
  }

  /**
   * A repository's reconciliation completes exactly when its fact is believed complete, storage lasts for the listing,
   * two writes for each finding not hidden, and the sweep, and the tables accept them all.
   */
  lemma CompletesIff(t: Tables, organization: string, fact: ResourcesFact, hidden: set<string>, startedAt: int,
                     calls: nat)
    requires organization != ""
    ensures var shown := Filter(f => Print(f) !in hidden, fact.data);
            Completes(ReconciledFact(t, organization, fact, hidden, startedAt, calls).1)
            <==> && fact.decodes && fact.complete && fact.recorded.complete && fact.repository != ""
                 && calls >= 2 * |shown| + 2 && forall f :: f in shown ==> Acceptable(f)
  {
    hide Records, Acceptable, Print, Written, Reading, ResourceFingerprint;
    var shown, findings := Filter(f => Print(f) !in hidden, fact.data), Unsuppressed(fact.data, hidden);
    forall f | f in fact.data
      ensures ResourceFingerprint(f) == Print(f)
    {
      PrintIs(f);
    }
    FiltersAgree((f: ResourceFinding) => Print(f) !in hidden,
                 (f: ResourceFinding) => ResourceFingerprint(f) !in hidden, fact.data);
    BelievedIff(fact);
    if calls > 0 && fact.repository != "" {
      var w := Writer(organization, fact.repository, startedAt + ONE_MILLISECOND);
      AllRecordedIff(w, findings, calls - 1);
      forall f | f in findings
        ensures Records(w, f) <==> Acceptable(f)
      {
        RecordsIff(w, f);
      }
      assert (forall k :: 0 <= k < |findings| ==> Records(w, findings[k])) <==> forall f :: f in findings ==> Acceptable(f);
    }
  }
}
