/** Claims on resources over any sequence of runs: where their marks come from, convergence, and suppression. */
module ResourceRuns {
  import opened Wrappers
  import opened DerivedRows
  import opened Facts
  import opened Fingerprints
  import opened Collector
  import opened Relationships
  import opened Resources
  import opened ResourceProperties

  /** The claim carries the mark this run writes for the repository. */
  predicate MarkedIn(claim: Claim, run: RunEvent, repository: string) {
    && claim.place.repository == repository && claim.mark.Some? && claim.mark.value.key == ResourceKeyFor(repository)
    && claim.mark.value.lastSeen == run.startedAt + ONE_MILLISECOND && claim.mark.value.fingerprint !in run.input.hidden(repository)
  }

  /** What the run does at its `k`-th fact. */
  function AtFact(t: Tables, run: RunEvent, k: nat): (Tables, Outcome)
    requires k < |run.input.facts|
  {
    var fact := run.input.facts[k];
    ReconciledFact(t, run.organization, fact, run.input.hidden(fact.repository), run.startedAt, run.input.calls(k))
  }

  function AfterFacts(t: Tables, run: RunEvent, n: nat): Tables
    requires n <= |run.input.facts|
  {
    ReconciledFacts(t, run.organization, run.input, run.startedAt, n).0
  }

  lemma ClaimsAreMarked(resources: seq<Resource>, run: RunEvent, fact: ResourcesFact, n: nat)
    requires n <= |Unsuppressed(fact.data, run.input.hidden(fact.repository))|
    ensures var w := Writer(run.organization, fact.repository, run.startedAt + ONE_MILLISECOND);
            var findings := Unsuppressed(fact.data, run.input.hidden(fact.repository));
            forall c :: c in LinkRows(resources, w, findings[..n]) ==> c.live && MarkedIn(c, run, fact.repository)
  {
    var w := Writer(run.organization, fact.repository, run.startedAt + ONE_MILLISECOND);
    var findings := Unsuppressed(fact.data, run.input.hidden(fact.repository));
    forall j | 0 <= j < n
      ensures LinkRows(resources, w, findings[..n])[j].live && MarkedIn(LinkRows(resources, w, findings[..n])[j], run,
                                                                        fact.repository)
    {
      LinkRowAt(resources, w, findings[..n], j);
      assert findings[j] in findings;
    }
  }

  /** The claims the run writes at its `k`-th fact. */
  function ClaimsAt(t: Tables, run: RunEvent, k: nat): seq<Claim>
    requires k < |run.input.facts|
  {
    var fact, calls := run.input.facts[k], run.input.calls(k);
    var w := Writer(run.organization, fact.repository, run.startedAt + ONE_MILLISECOND);
    var findings := Unsuppressed(fact.data, run.input.hidden(fact.repository));
    if calls == 0 then [] else LinkRows(t.resources, w, findings[..FullyRecorded(w, findings, calls - 1)])
  }

  predicate SweepsAt(t: Tables, run: RunEvent, k: nat)
    requires k < |run.input.facts|
  {
    AtFact(t, run, k).1.Done? && !AtFact(t, run, k).1.sweepSkipped
  }

  lemma ClaimsAtAreMarked(t: Tables, run: RunEvent, k: nat)
    requires k < |run.input.facts|
    ensures forall c :: c in ClaimsAt(t, run, k) ==> c.live && MarkedIn(c, run, run.input.facts[k].repository)
  {
    hide MarkedIn, Unsuppressed, LinkRows;
    var fact, calls := run.input.facts[k], run.input.calls(k);
    if calls > 0 {
      var w := Writer(run.organization, fact.repository, run.startedAt + ONE_MILLISECOND);
      ClaimsAreMarked(t.resources, run, fact,
                      FullyRecorded(w, Unsuppressed(fact.data, run.input.hidden(fact.repository)), calls - 1));
    }
  }

  /** The claims after a fact are the old ones reconciled with the fact's own. */
  lemma FactReconcilesLinks(t: Tables, run: RunEvent, k: nat)
    requires k < |run.input.facts|
    ensures var repository, claims := run.input.facts[k].repository, ClaimsAt(t, run, k);
            AtFact(t, run, k).0.links
            == Reconciled(t.links, claims, |claims|, SweepsAt(t, run, k), ByMark, ScopeOf(repository),
                          ResourceKeyFor(repository), run.startedAt)
  {
    hide LinkRows, Sweep, Unsuppressed, FullyRecorded, ResourcesAfter, Reading;
    WholePrefix(ClaimsAt(t, run, k));
  }

  /** Every claim after a fact was there before, or carries this run's mark. */
  lemma ClaimComesFrom(t: Tables, run: RunEvent, k: nat, l: nat)
    requires k < |run.input.facts| && l < |AtFact(t, run, k).0.links|
    ensures var claim := AtFact(t, run, k).0.links[l];
            (l < |t.links| && Descends(claim, t.links[l])) || MarkedIn(claim, run, run.input.facts[k].repository)
  {
    hide AtFact, ClaimsAt, SweepsAt, Reconciled;
    var repository, claims := run.input.facts[k].repository, ClaimsAt(t, run, k);
    FactReconcilesLinks(t, run, k);
    ClaimsAtAreMarked(t, run, k);
    ReconciledRowComesFrom(t.links, claims, |claims|, SweepsAt(t, run, k), ByMark, ScopeOf(repository),
                           ResourceKeyFor(repository), run.startedAt, l);
  }

  // ── where a mark comes from ────────────────────────────────────────────────

  predicate Reads(run: RunEvent, repository: string) {
    exists k :: 0 <= k < |run.input.facts| && run.input.facts[k].repository == repository
  }

  /** Some run that read the claim's repository was the last to observe it. */
  ghost predicate Stamped(claim: Claim, runs: seq<RunEvent>) {
    claim.mark.Some?
    && exists run :: run in runs && Reads(run, claim.place.repository) && claim.mark.value.lastSeen == run.startedAt + ONE_MILLISECOND
  }

  ghost predicate AllStamped(t: Tables, runs: seq<RunEvent>) {
    forall l :: 0 <= l < |t.links| ==> Stamped(t.links[l], runs)
  }

  lemma FactStamps(t: Tables, runs: seq<RunEvent>, run: RunEvent, k: nat)
    requires k < |run.input.facts| && run in runs && AllStamped(t, runs)
    ensures AllStamped(AtFact(t, run, k).0, runs)
  {
    hide AtFact;
    var after := AtFact(t, run, k).0;
    forall l | 0 <= l < |after.links|
      ensures Stamped(after.links[l], runs)
    {
      ClaimComesFrom(t, run, k, l);
      assert l < |t.links| ==> Stamped(t.links[l], runs);
    }
  }

  lemma OneMoreFact(t: Tables, run: RunEvent, n: nat)
    requires n < |run.input.facts|
    ensures AfterFacts(t, run, n + 1) == AtFact(AfterFacts(t, run, n), run, n).0
  {
  }

  lemma {:induction false} FactsStamp(t: Tables, runs: seq<RunEvent>, run: RunEvent, n: nat)
    requires n <= |run.input.facts| && run in runs && AllStamped(t, runs)
    ensures AllStamped(AfterFacts(t, run, n), runs)
  {
    hide AtFact, AllStamped, Gone, ReconciledFact;
    if n > 0 {
      FactsStamp(t, runs, run, n - 1);
      FactStamps(AfterFacts(t, run, n - 1), runs, run, n - 1);
      OneMoreFact(t, run, n - 1);
    }
  }

  lemma MoreRunsStillStamp(t: Tables, runs: seq<RunEvent>, more: seq<RunEvent>)
    requires AllStamped(t, runs) && forall run :: run in runs ==> run in more
    ensures AllStamped(t, more)
  {
    forall l | 0 <= l < |t.links|
      ensures Stamped(t.links[l], more)
    {
      assert Stamped(t.links[l], runs);
    }
  }

  lemma RunKeepsLinks(t: Tables, run: RunEvent)
    ensures ReconciledRun(t, run.organization, run.input, run.startedAt).links == AfterFacts(t, run, |run.input.facts|).links
  {
  }

  /** In every reachable state every claim was stamped by a run of the history that read its repository. */
  lemma {:induction false} EveryClaimIsStamped(runs: seq<RunEvent>)
    ensures AllStamped(Exec(Tables([], []), runs), runs)
  {
    if runs != [] {
      var front, last := runs[..|runs| - 1], runs[|runs| - 1];
      var before := Exec(Tables([], []), front);
      EveryClaimIsStamped(front);
      MoreRunsStillStamp(before, front, runs);
      FactsStamp(before, runs, last, |last.input.facts|);
      RunKeepsLinks(before, last);
      assert Exec(Tables([], []), runs) == ReconciledRun(before, last.organization, last.input, last.startedAt);
    }
  }

  /** Every run of the history that read the repository started more than a millisecond before this one. */
  ghost predicate Spaced(history: seq<RunEvent>, repository: string, startedAt: int) {
    forall run :: run in history && Reads(run, repository) ==> run.startedAt + ONE_MILLISECOND < startedAt
  }

  lemma SpacedRunsDoNotOverlap(history: seq<RunEvent>, repository: string, startedAt: int)
    requires Spaced(history, repository, startedAt)
    ensures ResourceProperties.NoOverlap(Exec(Tables([], []), history), repository, startedAt)
  {
    var links := Exec(Tables([], []), history).links;
    EveryClaimIsStamped(history);
    forall l | 0 <= l < |links| && InScope(links[l], ScopeOf(repository), ResourceKeyFor(repository))
      ensures links[l].mark.value.lastSeen < startedAt
    {
      assert Stamped(links[l], history);
    }
  }

  /**
   * Convergence over any history: a repository whose reconciliation completes, in a run started more than a
   * millisecond after every earlier run that read it, ends the run with exactly the claims its findings make.
   */
  lemma ConvergesOverAnyHistory(history: seq<RunEvent>, run: RunEvent, k: nat)
    requires OneFactPerRepository(run.input.facts) && k < |run.input.facts|
    requires Spaced(history, run.input.facts[k].repository, run.startedAt)
    requires var outcome := AtFact(Exec(Tables([], []), history), run, k).1; outcome.Done? && !outcome.sweepSkipped
    ensures var fact := run.input.facts[k];
            LiveClaims(ReconciledRun(Exec(Tables([], []), history), run.organization, run.input, run.startedAt),
                       fact.repository)
            == WantedClaims(run.organization, fact.repository,
                            Unsuppressed(fact.data, run.input.hidden(fact.repository)))
  {
    hide LiveClaims, WantedClaims, ReconciledRun;
    SpacedRunsDoNotOverlap(history, run.input.facts[k].repository, run.startedAt);
    ReachableTablesAreSound(history);
    EveryRepositoryConvergesAlone(Exec(Tables([], []), history), run.organization, run.input, run.startedAt, k);
  }

  // ── suppression ────────────────────────────────────────────────────────────

  /** No live claim of the repository carries the fingerprint. */
  ghost predicate Gone(t: Tables, repository: string, fingerprint: string) {
    forall l :: 0 <= l < |t.links| && InScope(t.links[l], ScopeOf(repository), ResourceKeyFor(repository)) ==>
                  t.links[l].mark.value.fingerprint != fingerprint
  }

  lemma FactKeepsGone(t: Tables, run: RunEvent, k: nat, repository: string, fingerprint: string)
    requires k < |run.input.facts| && Gone(t, repository, fingerprint) && fingerprint in run.input.hidden(repository)
    ensures Gone(AtFact(t, run, k).0, repository, fingerprint)
  {
    hide AtFact;
    var after := AtFact(t, run, k).0;
    forall l | 0 <= l < |after.links| && InScope(after.links[l], ScopeOf(repository), ResourceKeyFor(repository))
      ensures after.links[l].mark.value.fingerprint != fingerprint
    {
      ClaimComesFrom(t, run, k, l);
    }
  }

  lemma {:induction false} FactsKeepGone(t: Tables, run: RunEvent, n: nat, repository: string, fingerprint: string)
    requires n <= |run.input.facts| && Gone(t, repository, fingerprint) && fingerprint in run.input.hidden(repository)
    ensures Gone(AfterFacts(t, run, n), repository, fingerprint)
  {
    hide AtFact, AllStamped, Gone, ReconciledFact;
    if n > 0 {
      FactsKeepGone(t, run, n - 1, repository, fingerprint);
      FactKeepsGone(AfterFacts(t, run, n - 1), run, n - 1, repository, fingerprint);
      OneMoreFact(t, run, n - 1);
    }
  }

  /** A claim suppressed and gone stays gone through every later run that still hides it. */
  lemma {:induction false} SuppressedClaimStaysGone(t: Tables, runs: seq<RunEvent>, repository: string,
                                                    fingerprint: string)
    requires Gone(t, repository, fingerprint) && forall run :: run in runs ==> fingerprint in run.input.hidden(repository)
    ensures Gone(Exec(t, runs), repository, fingerprint)
  {
    if runs != [] {
      var last := runs[|runs| - 1];
      var before := Exec(t, runs[..|runs| - 1]);
      assert last in runs;
      SuppressedClaimStaysGone(t, runs[..|runs| - 1], repository, fingerprint);
      FactsKeepGone(before, last, |last.input.facts|, repository, fingerprint);
      RunKeepsLinks(before, last);
      assert Exec(t, runs) == ReconciledRun(before, last.organization, last.input, last.startedAt);
    }
  }

  // ── fingerprints and ports ─────────────────────────────────────────────────

  predicate NulFreeFinding(f: ResourceFinding) {
    NulFree(f.ruleId) && NulFree(f.locator.engine) && NulFree(f.locator.host) && NulFree(f.locator.namespace) && NulFree(f.displayName)
  }

  /**
   * Two findings share a fingerprint exactly when they agree on everything but port, confidence, scope and evidence.
   */
  lemma FingerprintsAgreeIff(f: ResourceFinding, g: ResourceFinding)
    requires NulFreeFinding(f) && NulFreeFinding(g)
    ensures ResourceFingerprint(f) == ResourceFingerprint(g)
            <==> && f.ruleId == g.ruleId && f.locator.engine == g.locator.engine && f.locator.host == g.locator.host
                 && f.locator.namespace == g.locator.namespace && f.displayName == g.displayName
  {
    var x := [f.ruleId, f.locator.engine, f.locator.host, f.locator.namespace, f.displayName];
    var y := [g.ruleId, g.locator.engine, g.locator.host, g.locator.namespace, g.displayName];
    if ResourceFingerprint(f) == ResourceFingerprint(g) {
      FingerprintIsInjective(x, y);
      assert x[0] == y[0] && x[1] == y[1] && x[2] == y[2] && x[3] == y[3] && x[4] == y[4];
    }
  }

  /**
   * Two connection strings to one host that differ only in port are two resources, yet suppressing the claim on one
   * hides the other: their fingerprints are equal, so neither is kept without the other.
   */
  lemma SuppressingOnePortHidesTheOther(a: Locator, b: Locator, organization: string, repository: string,
                                        findings: seq<ResourceFinding>, hidden: set<string>)
    requires a.engine == b.engine && a.host == b.host && a.namespace == b.namespace && a.port != b.port
    requires a.port != Some(-1) && b.port != Some(-1)
    requires DsnFinding(a) in findings && DsnFinding(b) in findings
    ensures PlaceOf(organization, repository, DsnFinding(a)) != PlaceOf(organization, repository, DsnFinding(b))
    ensures ResourceFingerprint(DsnFinding(a)) in hidden ==>
              DsnFinding(a) !in Unsuppressed(findings, hidden) && DsnFinding(b) !in Unsuppressed(findings, hidden)
    ensures DsnFinding(a) in Unsuppressed(findings, hidden) <==> DsnFinding(b) in Unsuppressed(findings, hidden)
  {
    assert a.DisplayName() == b.DisplayName();
    assert ResourceFingerprint(DsnFinding(a)) == ResourceFingerprint(DsnFinding(b));
  }
}
