/** What the rows of discovered APIs say after a run. */
module ApiContent {
  import opened Wrappers
  import opened DerivedRows
  import opened Facts
  import opened Fingerprints
  import opened Relationships
  import opened Apis
  import opened ApiRuns

  predicate IsHidden(spec: Spec, hidden: set<string>) {
    Fingerprint([spec.ruleId, spec.path]) in hidden
  }

  /** The row is derived for the repository by the run stamping `seenAt`, and is all the specification is. */
  predicate Says(row: Api, repository: string, spec: Spec, seenAt: int) {
    && row.live && row.place.repository == repository && row.place.path == spec.path && row.content == spec
    && row.mark.Some? && row.mark.value.key == "apidisc:v1:repo/" + repository
    && row.mark.value.fingerprint == Fingerprint([spec.ruleId, spec.path]) && row.mark.value.lastSeen == seenAt
  }

  /** The `n`-th specification is not hidden, and none after it that is not is at the same path. */
  ghost predicate LastOfItsPath(specs: seq<Spec>, hidden: set<string>, n: nat) {
    && n < |specs| && !IsHidden(specs[n], hidden)
    && forall m :: n < m < |specs| && !IsHidden(specs[m], hidden) ==> specs[m].path != specs[n].path
  }

  lemma LastLike(specs: seq<Spec>, hidden: set<string>, spec: Spec) returns (n: nat)
    requires spec in specs && !IsHidden(spec, hidden)
    ensures LastOfItsPath(specs, hidden, n) && specs[n].path == spec.path
  {
    var k :| 0 <= k < |specs| && specs[k] == spec;
    n := |specs| - 1;
    while IsHidden(specs[n], hidden) || specs[n].path != spec.path
      invariant k <= n < |specs|
      invariant forall m :: n < m < |specs| ==> IsHidden(specs[m], hidden) || specs[m].path != spec.path
      decreases n
    {
      n := n - 1;
    }
  }

  predicate Completes(outcome: Outcome) {
    outcome.Done? && !outcome.sweepSkipped
  }

  lemma CompletedIsSwept(rows: seq<Api>, organization: string, fact: ApisFact, hidden: set<string>, startedAt: int,
                         calls: nat)
    requires Completes(ReconciledApis(rows, organization, fact, hidden, startedAt, calls).1)
    ensures ReconciledApis(rows, organization, fact, hidden, startedAt, calls).0
            == SweptApis(rows, fact.repository, UnsuppressedSpecs(fact.data, hidden), startedAt)
  {
    WholePrefix(ApiRows(fact.repository, startedAt + ONE_MILLISECOND, UnsuppressedSpecs(fact.data, hidden)));
  }

  lemma LastSpecIsWritten(rows: seq<Api>, repository: string, data: seq<Spec>, hidden: set<string>, startedAt: int,
                          n: nat)
    returns (i: nat)
    requires LastOfItsPath(data, hidden, n)
    ensures var after := SweptApis(rows, repository, UnsuppressedSpecs(data, hidden), startedAt);
            i < |after| && Says(after[i], repository, data[n], startedAt + ONE_MILLISECOND)
  {
    var specs := UnsuppressedSpecs(data, hidden);
    var at := FilterPlace(s => ApiFingerprint(s) !in hidden, data, n);
    var claims := ApiRows(repository, startedAt + ONE_MILLISECOND, specs);
    assert claims[at] == ApiRow(repository, startedAt + ONE_MILLISECOND, data[n]);
    forall m | at < m < |claims|
      ensures !Same(claims[m], claims[at], ByPlace)
    {
      var k :| n < k < |data| && ApiFingerprint(data[k]) !in hidden && specs[m] == data[k];
      assert !IsHidden(data[k], hidden);
    }
    i := LastWriteHolds(rows, claims, ByPlace, at);
  }

  /**
   * A repository's completed reconciliation leaves, for every path, a live row that is the last specification there.
   */
  lemma EveryPathIsSaid(rows: seq<Api>, organization: string, fact: ApisFact, hidden: set<string>, startedAt: int,
                        calls: nat, n: nat)
    returns (i: nat)
    requires Completes(ReconciledApis(rows, organization, fact, hidden, startedAt, calls).1)
    requires LastOfItsPath(fact.data, hidden, n)
    ensures var after := ReconciledApis(rows, organization, fact, hidden, startedAt, calls).0;
            i < |after| && Says(after[i], fact.repository, fact.data[n], startedAt + ONE_MILLISECOND)
  {
    hide SweptApis, ReconciledApis, LastOfItsPath, Says;
    CompletedIsSwept(rows, organization, fact, hidden, startedAt, calls);
    i := LastSpecIsWritten(rows, fact.repository, fact.data, hidden, startedAt, n);
  }

  /** And every live row of its key is one of those. */
  lemma EveryLiveRowSaysItsLast(rows: seq<Api>, organization: string, fact: ApisFact, hidden: set<string>,
                                startedAt: int, calls: nat, i: nat)
    returns (n: nat)
    requires Completes(ReconciledApis(rows, organization, fact, hidden, startedAt, calls).1)
    requires Unique(rows, ByPlace) && UnseenSince(rows, fact.repository, startedAt)
    requires var after := ReconciledApis(rows, organization, fact, hidden, startedAt, calls).0;
             i < |after| && InScope(after[i], ApiScope(fact.repository), ApiKey(fact.repository))
    ensures LastOfItsPath(fact.data, hidden, n)
    ensures Says(ReconciledApis(rows, organization, fact, hidden, startedAt, calls).0[i], fact.repository, fact.data[n],
                 startedAt + ONE_MILLISECOND)
  {
    hide ReconciledApis, LastOfItsPath;
    var after := ReconciledApis(rows, organization, fact, hidden, startedAt, calls).0;
    ApisConverge(rows, organization, fact, hidden, startedAt, calls);
    assert after[i].place.path in LivePaths(after, fact.repository);
    var s :| s in UnsuppressedSpecs(fact.data, hidden) && s.path == after[i].place.path;
    n := LastLike(fact.data, hidden, s);
    var j := EveryPathIsSaid(rows, organization, fact, hidden, startedAt, calls, n);
    PathKeepsItsRow(rows, organization, fact, hidden, startedAt, calls);
    assert Same(after[i], after[j], ByPlace);
  }

  lemma SpacedRunsDoNotOverlap(history: seq<ApiRun>, repository: string, startedAt: int)
    requires Spaced(history, repository, startedAt)
    ensures UnseenSince(Exec([], history), repository, startedAt)
  {
    var rows := Exec([], history);
    EveryRowIsStamped(history);
    forall i | 0 <= i < |rows| && InScope(rows[i], ApiScope(repository), ApiKey(repository))
      ensures rows[i].mark.value.lastSeen < startedAt
    {
      assert Stamped(rows[i], history);
    }
  }

  /**
   * The repository's rows at the end of a run are those its own reconciliation left, which met the rows of the
   * history.
   */
  lemma OwnRowsOnly(history: seq<ApiRun>, run: ApiRun, k: nat)
    requires OneFactPerRepository(run.facts) && k < |run.facts|
    ensures var rows, repository := Exec([], history), run.facts[k].repository;
            && KeepsRowsOf(rows, AfterFacts(rows, run, k), repository) && Unique(AfterFacts(rows, run, k), ByPlace)
            && KeepsRowsOf(AtFact(AfterFacts(rows, run, k), run, k).0, AfterRun(rows, run), repository)
  {
    hide KeepsRowsOf, AtFact;
    var rows, repository := Exec([], history), run.facts[k].repository;
    FactsKeepOtherRows(rows, run, 0, k, repository);
    RunsKeepUnique([], history);
    FactsKeepUnique(rows, run, k);
    FactsKeepOtherRows(rows, run, k + 1, |run.facts|, repository);
  }

  /**
   * After any history: a repository whose reconciliation completes, in a run started more than a millisecond after
   * every earlier one that read it, ends the run with live rows that say exactly what its specifications say. Every
   * one of them is the last unsuppressed specification of its fact at that path.
   */
  lemma EveryApiOfTheRunSays(history: seq<ApiRun>, run: ApiRun, k: nat, i: nat) returns (n: nat)
    requires OneFactPerRepository(run.facts) && k < |run.facts|
    requires Spaced(history, run.facts[k].repository, run.startedAt)
    requires Completes(AtFact(AfterFacts(Exec([], history), run, k), run, k).1)
    requires var fact, after := run.facts[k], AfterRun(Exec([], history), run);
             i < |after| && InScope(after[i], ApiScope(fact.repository), ApiKey(fact.repository))
    ensures var fact := run.facts[k];
            && LastOfItsPath(fact.data, run.hidden(fact.repository), n)
            && Says(AfterRun(Exec([], history), run)[i], fact.repository, fact.data[n], run.startedAt + ONE_MILLISECOND)
  {
    hide ReconciledApis, Exec, AfterRun, AfterFacts, UnseenSince, LastOfItsPath, Says, Spaced;
    var rows, fact := Exec([], history), run.facts[k];
    OwnRowsOnly(history, run, k);
    SpacedRunsDoNotOverlap(history, fact.repository, run.startedAt);
    KeptRowsDoNotOverlap(rows, AfterFacts(rows, run, k), fact.repository, run.startedAt);
    n := EveryLiveRowSaysItsLast(AfterFacts(rows, run, k), run.organization, fact, run.hidden(fact.repository),
                                 run.startedAt, run.calls(k), i);
  }

  /** And for every path some live row does. */
  lemma EveryPathOfTheRunIsSaid(history: seq<ApiRun>, run: ApiRun, k: nat, n: nat) returns (i: nat)
    requires OneFactPerRepository(run.facts) && k < |run.facts|
    requires Completes(AtFact(AfterFacts(Exec([], history), run, k), run, k).1)
    requires LastOfItsPath(run.facts[k].data, run.hidden(run.facts[k].repository), n)
    ensures var fact, after := run.facts[k], AfterRun(Exec([], history), run);
            i < |after| && Says(after[i], fact.repository, fact.data[n], run.startedAt + ONE_MILLISECOND)
  {
    hide ReconciledApis, Exec, AfterRun, AfterFacts, LastOfItsPath;
    var rows, fact := Exec([], history), run.facts[k];
    OwnRowsOnly(history, run, k);
    i := EveryPathIsSaid(AfterFacts(rows, run, k), run.organization, fact, run.hidden(fact.repository), run.startedAt,
                         run.calls(k), n);
  }

  // ── when a reconciliation completes ────────────────────────────────────────

  lemma {:induction false} AllLandIff(organization: string, claims: seq<Api>, calls: nat)
    ensures LandedApis(organization, claims, calls) == |claims|
            <==> |claims| <= calls && forall k :: 0 <= k < |claims| ==> StorableApi(organization, claims[k])
  {
    if claims != [] {
      var front := claims[..|claims| - 1];
      AllLandIff(organization, front, calls);
      assert forall k :: 0 <= k < |front| ==> front[k] == claims[k];
    }
  }

  /** The table accepts a specification at a path, of a known kind. */
  predicate Acceptable(spec: Spec) {
    spec.path != "" && !spec.kind.UnknownSpec?
  }

  lemma AllAcceptedIff(organization: string, repository: string, seenAt: int, specs: seq<Spec>)
    requires organization != "" && repository != ""
    ensures var claims := ApiRows(repository, seenAt, specs);
            (forall k :: 0 <= k < |claims| ==> StorableApi(organization, claims[k])) <==> forall s :: s in specs ==> Acceptable(s)
  {
    var claims := ApiRows(repository, seenAt, specs);
    assert forall k :: 0 <= k < |claims| ==> (StorableApi(organization, claims[k]) <==> Acceptable(specs[k]));
  }

  lemma UnsuppressedAreShown(specs: seq<Spec>, hidden: set<string>)
    ensures UnsuppressedSpecs(specs, hidden) == Filter(s => !IsHidden(s, hidden), specs)
  {
    FiltersAgree((s: Spec) => !IsHidden(s, hidden), (s: Spec) => ApiFingerprint(s) !in hidden, specs);
  }

  /**
   * A repository's reconciliation completes exactly when its fact is believed complete, storage lasts for the listing,
   * one write for each specification not hidden, and the sweep, and the table accepts them all.
   */
  lemma CompletesIff(rows: seq<Api>, organization: string, fact: ApisFact, hidden: set<string>, startedAt: int,
                     calls: nat)
    requires organization != ""
    ensures var shown := Filter(s => !IsHidden(s, hidden), fact.data);
            Completes(ReconciledApis(rows, organization, fact, hidden, startedAt, calls).1)
            <==> && fact.decodes && fact.complete && fact.recorded.complete && fact.repository != ""
                 && calls >= |shown| + 2 && forall s :: s in shown ==> Acceptable(s)
  {
    var specs := UnsuppressedSpecs(fact.data, hidden);
    UnsuppressedAreShown(fact.data, hidden);
    var claims := ApiRows(fact.repository, startedAt + ONE_MILLISECOND, specs);
    BelievedIff(fact);
    hide LandedApis, StorableApi, UnsuppressedSpecs, Acceptable, ApiFingerprint, IsHidden, PutAll, Reading;
    if calls > 0 && fact.repository != "" {
      AllLandIff(organization, claims, calls - 1);
      AllAcceptedIff(organization, fact.repository, startedAt + ONE_MILLISECOND, specs);
    }
  }
}
