/** Discovered APIs over whole runs: every repository's fact in turn, and any sequence of such runs. */
module ApiRuns {
  import opened Wrappers
  import opened DerivedRows
  import opened Facts
  import opened Relationships
  import opened Apis

  /** One pass over an organization's API facts; `hidden` is what is suppressed under a repository's key. */
  datatype ApiRun = ApiRun(organization: string, facts: seq<ApisFact>, hidden: string -> set<string>,
                           calls: nat -> nat, startedAt: int)

  /** What the run does to the table at its `k`-th fact, and how that reconciliation ends. */
  function AtFact(rows: seq<Api>, run: ApiRun, k: nat): (seq<Api>, Outcome)
    requires k < |run.facts|
  {
    ReconciledApis(rows, run.organization, run.facts[k], run.hidden(run.facts[k].repository), run.startedAt,
                   run.calls(k))
  }

  /** The table after the first `n` facts; a repository that fails does not stop the next one. */
  function AfterFacts(rows: seq<Api>, run: ApiRun, n: nat): seq<Api>
    requires n <= |run.facts|
  {
    if n == 0 then rows else AtFact(AfterFacts(rows, run, n - 1), run, n - 1).0
  }

  function AfterRun(rows: seq<Api>, run: ApiRun): seq<Api> {
    AfterFacts(rows, run, |run.facts|)
  }

  function Exec(rows: seq<Api>, runs: seq<ApiRun>): seq<Api> {
    if runs == [] then rows else AfterRun(Exec(rows, runs[..|runs| - 1]), runs[|runs| - 1])
  }

  ghost predicate OneFactPerRepository(facts: seq<ApisFact>) {
    forall i, j :: 0 <= i < |facts| && 0 <= j < |facts| && facts[i].repository == facts[j].repository ==> i == j
  }

  // ── one repository among the others ────────────────────────────────────────

  /** The repository's rows are the same ones, unchanged. */
  ghost predicate KeepsRowsOf(before: seq<Api>, after: seq<Api>, repository: string) {
    && |before| <= |after|
    && (forall i :: 0 <= i < |before| && before[i].place.repository == repository ==> after[i] == before[i])
    && (forall i :: 0 <= i < |after| && after[i].place.repository == repository ==> i < |before| && before[i].place.repository == repository)
  }

  lemma FactKeepsOtherRows(rows: seq<Api>, run: ApiRun, k: nat, repository: string)
    requires k < |run.facts| && run.facts[k].repository != repository
    ensures KeepsRowsOf(rows, AtFact(rows, run, k).0, repository)
  {
    var fact := run.facts[k];
    var after := AtFact(rows, run, k).0;
    forall i | 0 <= i < |rows| && rows[i].place.repository == repository
      ensures i < |after| && after[i] == rows[i]
    {
      OtherRepositoriesUntouched(rows, run.organization, fact, run.hidden(fact.repository), run.startedAt,
                                 run.calls(k), i);
    }
    forall i | 0 <= i < |after| && after[i].place.repository == repository
      ensures i < |rows| && rows[i].place.repository == repository
    {
      RowComesFrom(rows, run, k, i);
    }
  }

  /** The row carries the mark this run writes for the repository. */
  predicate MarkedBy(row: Api, run: ApiRun, repository: string) {
    && row.place.repository == repository && row.mark.Some? && row.mark.value.key == ApiKey(repository)
    && row.mark.value.lastSeen == run.startedAt + ONE_MILLISECOND && row.mark.value.fingerprint !in run.hidden(repository)
  }

  lemma ClaimsAreMarked(run: ApiRun, fact: ApisFact, n: nat)
    requires var claims := ApiRows(fact.repository, run.startedAt + ONE_MILLISECOND,
                                   UnsuppressedSpecs(fact.data, run.hidden(fact.repository)));
             n <= |claims|
    ensures var claims := ApiRows(fact.repository, run.startedAt + ONE_MILLISECOND,
                                  UnsuppressedSpecs(fact.data, run.hidden(fact.repository)));
            forall w :: w in claims[..n] ==> w.live && MarkedBy(w, run, fact.repository)
  {
    var specs := UnsuppressedSpecs(fact.data, run.hidden(fact.repository));
    var claims := ApiRows(fact.repository, run.startedAt + ONE_MILLISECOND, specs);
    forall j | 0 <= j < |claims|
      ensures claims[j].live && MarkedBy(claims[j], run, fact.repository)
    {
      assert specs[j] in specs;
    }
  }

  /** Every row a fact's reconciliation leaves was there before, or carries this run's mark. */
  lemma RowComesFrom(rows: seq<Api>, run: ApiRun, k: nat, i: nat)
    requires k < |run.facts| && i < |AtFact(rows, run, k).0|
    ensures var row := AtFact(rows, run, k).0[i];
            (i < |rows| && Descends(row, rows[i])) || MarkedBy(row, run, run.facts[k].repository)
  {
    hide Sweep, LandedApis, UnsuppressedSpecs, Reading;
    var fact, calls := run.facts[k], run.calls(k);
    if calls > 0 {
      var claims := ApiRows(fact.repository, run.startedAt + ONE_MILLISECOND,
                            UnsuppressedSpecs(fact.data, run.hidden(fact.repository)));
      var n := LandedApis(run.organization, claims, calls - 1);
      var sweeps := AtFact(rows, run, k).1.Done? && Reading(fact).complete;
      ClaimsAreMarked(run, fact, |claims|);
      WholePrefix(claims);
      ReconciledRowComesFrom(rows, claims, n, sweeps, ByPlace, ApiScope(fact.repository), ApiKey(fact.repository),
                             run.startedAt, i);
    }
  }

  lemma KeptAndKept(a: seq<Api>, b: seq<Api>, c: seq<Api>, repository: string)
    requires KeepsRowsOf(a, b, repository) && KeepsRowsOf(b, c, repository)
    ensures KeepsRowsOf(a, c, repository)
  {
  }

  lemma KeptByNothing(rows: seq<Api>, repository: string)
    ensures KeepsRowsOf(rows, rows, repository)
  {
  }

  lemma OneMoreFactKeeps(before: seq<Api>, rows: seq<Api>, run: ApiRun, k: nat, repository: string)
    requires k < |run.facts| && run.facts[k].repository != repository && KeepsRowsOf(before, rows, repository)
    ensures KeepsRowsOf(before, AtFact(rows, run, k).0, repository)
  {
    FactKeepsOtherRows(rows, run, k, repository);
    KeptAndKept(before, rows, AtFact(rows, run, k).0, repository);
  }

  lemma {:induction false} FactsKeepOtherRows(rows: seq<Api>, run: ApiRun, a: nat, b: nat, repository: string)
    requires a <= b <= |run.facts|
    requires forall k :: a <= k < b ==> run.facts[k].repository != repository
    ensures KeepsRowsOf(AfterFacts(rows, run, a), AfterFacts(rows, run, b), repository)
    decreases b
  {
    hide AtFact, KeepsRowsOf;
    if a == b {
      KeptByNothing(AfterFacts(rows, run, a), repository);
    } else {
      FactsKeepOtherRows(rows, run, a, b - 1, repository);
      OneMoreFactKeeps(AfterFacts(rows, run, a), AfterFacts(rows, run, b - 1), run, b - 1, repository);
    }
  }

  lemma KeptRowsSayTheSame(before: seq<Api>, after: seq<Api>, repository: string)
    requires KeepsRowsOf(before, after, repository)
    ensures LivePaths(after, repository) == LivePaths(before, repository)
  {
    forall i | 0 <= i < |before| && InScope(before[i], ApiScope(repository), ApiKey(repository))
      ensures InScope(after[i], ApiScope(repository), ApiKey(repository)) && after[i].place == before[i].place
    {
      assert before[i].place.repository == repository;
    }
    forall i | 0 <= i < |after| && InScope(after[i], ApiScope(repository), ApiKey(repository))
      ensures i < |before| && InScope(before[i], ApiScope(repository), ApiKey(repository)) && after[i].place == before[i].place
    {
      assert after[i].place.repository == repository;
    }
  }

  /**
   * Every repository converges alone: whatever the other facts of the run are and whatever storage does to them, a
   * repository whose own reconciliation completes ends the run with exactly the unsuppressed paths of its fact.
   */
  lemma EveryRepositoryConvergesAlone(rows: seq<Api>, run: ApiRun, k: nat)
    requires OneFactPerRepository(run.facts) && k < |run.facts|
    requires var outcome := AtFact(AfterFacts(rows, run, k), run, k).1; outcome.Done? && !outcome.sweepSkipped
    requires UnseenSince(rows, run.facts[k].repository, run.startedAt)
    ensures var fact := run.facts[k];
            LivePaths(AfterRun(rows, run), fact.repository) == WantedPaths(fact, run.hidden(fact.repository))
  {
    var fact, before := run.facts[k], AfterFacts(rows, run, k);
    FactsKeepOtherRows(rows, run, 0, k, fact.repository);
    KeptRowsDoNotOverlap(rows, before, fact.repository, run.startedAt);
    ApisConverge(before, run.organization, fact, run.hidden(fact.repository), run.startedAt, run.calls(k));
    FactsKeepOtherRows(rows, run, k + 1, |run.facts|, fact.repository);
    KeptRowsSayTheSame(AfterFacts(rows, run, k + 1), AfterRun(rows, run), fact.repository);
  }

  lemma KeptRowsDoNotOverlap(before: seq<Api>, after: seq<Api>, repository: string, startedAt: int)
    requires KeepsRowsOf(before, after, repository) && UnseenSince(before, repository, startedAt)
    ensures UnseenSince(after, repository, startedAt)
  {
    forall i | 0 <= i < |after| && InScope(after[i], ApiScope(repository), ApiKey(repository))
      ensures after[i].mark.value.lastSeen < startedAt
    {
      assert after[i].place.repository == repository && after[i] == before[i];
    }
  }

  /** A repository whose fact is incomplete, or whose reconciliation fails, loses no row in the whole run. */
  lemma IncompleteFactRetractsNothing(rows: seq<Api>, run: ApiRun, k: nat, i: nat)
    requires OneFactPerRepository(run.facts) && k < |run.facts|
    requires !Reading(run.facts[k]).complete || AtFact(AfterFacts(rows, run, k), run, k).1.Failed?
    requires i < |rows| && rows[i].live && rows[i].place.repository == run.facts[k].repository
    ensures var after := AfterRun(rows, run); i < |after| && after[i].live && after[i].place == rows[i].place
  {
    var fact, before := run.facts[k], AfterFacts(rows, run, k);
    FactsKeepOtherRows(rows, run, 0, k, fact.repository);
    IncompleteApisRetractNothing(before, run.organization, fact, run.hidden(fact.repository), run.startedAt,
                                 run.calls(k), i);
    PlacesStayAtFact(before, run, k);
    FactsKeepOtherRows(rows, run, k + 1, |run.facts|, fact.repository);
  }

  // ── over any sequence of runs ──────────────────────────────────────────────

  /** Rows are only ever added, and none changes what it stands for. */
  ghost predicate PlacesStay(before: seq<Api>, after: seq<Api>) {
    |before| <= |after| && forall i :: 0 <= i < |before| ==> after[i].place == before[i].place
  }

  lemma PlacesStayAtFact(rows: seq<Api>, run: ApiRun, k: nat)
    requires k < |run.facts|
    ensures PlacesStay(rows, AtFact(rows, run, k).0)
  {
    hide LandedApis, UnsuppressedSpecs, Reading, ApiRows;
    var fact, calls := run.facts[k], run.calls(k);
    if calls > 0 {
      var claims := ApiRows(fact.repository, run.startedAt + ONE_MILLISECOND,
                            UnsuppressedSpecs(fact.data, run.hidden(fact.repository)));
      forall i | 0 <= i < |rows| {
        PutAllKeepsIdentity(rows, claims[..LandedApis(run.organization, claims, calls - 1)], ByPlace, i);
      }
    }
  }

  lemma PlacesStayOn(a: seq<Api>, b: seq<Api>, c: seq<Api>)
    requires PlacesStay(a, b) && PlacesStay(b, c)
    ensures PlacesStay(a, c)
  {
  }

  lemma OneMoreFactStays(before: seq<Api>, rows: seq<Api>, run: ApiRun, k: nat)
    requires k < |run.facts| && PlacesStay(before, rows)
    ensures PlacesStay(before, AtFact(rows, run, k).0)
  {
    PlacesStayAtFact(rows, run, k);
    PlacesStayOn(before, rows, AtFact(rows, run, k).0);
  }

  lemma NoPlaceMoves(rows: seq<Api>)
    ensures PlacesStay(rows, rows)
  {
  }

  lemma {:induction false} FactsKeepPlaces(rows: seq<Api>, run: ApiRun, n: nat)
    requires n <= |run.facts|
    ensures PlacesStay(rows, AfterFacts(rows, run, n))
  {
    hide AtFact, PlacesStay;
    NoPlaceMoves(rows);
    if n > 0 {
      FactsKeepPlaces(rows, run, n - 1);
      OneMoreFactStays(rows, AfterFacts(rows, run, n - 1), run, n - 1);
    }
  }

  lemma {:induction false} FactsKeepUnique(rows: seq<Api>, run: ApiRun, n: nat)
    requires n <= |run.facts| && Unique(rows, ByPlace)
    ensures Unique(AfterFacts(rows, run, n), ByPlace)
  {
    if n > 0 {
      var fact := run.facts[n - 1];
      FactsKeepUnique(rows, run, n - 1);
      PathKeepsItsRow(AfterFacts(rows, run, n - 1), run.organization, fact, run.hidden(fact.repository),
                      run.startedAt, run.calls(n - 1));
    }
  }

  /** Over any sequence of runs every row keeps its place. */
  lemma {:induction false} RunsKeepPlaces(rows: seq<Api>, runs: seq<ApiRun>)
    ensures PlacesStay(rows, Exec(rows, runs))
  {
    if runs != [] {
      var before, last := Exec(rows, runs[..|runs| - 1]), runs[|runs| - 1];
      RunsKeepPlaces(rows, runs[..|runs| - 1]);
      FactsKeepPlaces(before, last, |last.facts|);
      PlacesStayOn(rows, before, AfterRun(before, last));
    }
  }

  /** Over any sequence of runs a repository's path has at most one row. */
  lemma {:induction false} RunsKeepUnique(rows: seq<Api>, runs: seq<ApiRun>)
    requires Unique(rows, ByPlace)
    ensures Unique(Exec(rows, runs), ByPlace)
  {
    if runs != [] {
      var last := runs[|runs| - 1];
      RunsKeepUnique(rows, runs[..|runs| - 1]);
      FactsKeepUnique(Exec(rows, runs[..|runs| - 1]), last, |last.facts|);
    }
  }

  /**
   * In every reachable table a repository's path has one row, and it is the same row ever after: whatever vanishes,
   * returns or is renamed, the row that stands for a path keeps its id.
   */
  lemma PathKeepsItsId(history: seq<ApiRun>, later: seq<ApiRun>, id: nat, other: nat)
    requires id < |Exec([], history)| && other < |Exec(Exec([], history), later)|
    requires Exec(Exec([], history), later)[other].place == Exec([], history)[id].place
    ensures other == id
  {
    RunsKeepUnique([], history);
    RunsKeepUnique(Exec([], history), later);
    RunsKeepPlaces(Exec([], history), later);
    var after := Exec(Exec([], history), later);
    assert Same(after[other], after[id], ByPlace);
  }

  // ── where a mark comes from ────────────────────────────────────────────────

  /** The run reconciles the repository. */
  predicate Reads(run: ApiRun, repository: string) {
    exists k :: 0 <= k < |run.facts| && run.facts[k].repository == repository
  }

  /** The row was last observed by one of the runs, while it reconciled the row's repository. */
  ghost predicate Stamped(row: Api, runs: seq<ApiRun>) {
    row.mark.Some? && row.mark.value.key == ApiKey(row.place.repository)
    && exists run :: run in runs && Reads(run, row.place.repository) && row.mark.value.lastSeen == run.startedAt + ONE_MILLISECOND
  }

  lemma {:induction false} FactsStamp(rows: seq<Api>, runs: seq<ApiRun>, run: ApiRun, n: nat)
    requires n <= |run.facts| && run in runs && forall i :: 0 <= i < |rows| ==> Stamped(rows[i], runs)
    ensures forall i :: 0 <= i < |AfterFacts(rows, run, n)| ==> Stamped(AfterFacts(rows, run, n)[i], runs)
  {
    if n > 0 {
      FactsStamp(rows, runs, run, n - 1);
      var before, after := AfterFacts(rows, run, n - 1), AfterFacts(rows, run, n);
      forall i | 0 <= i < |after|
        ensures Stamped(after[i], runs)
      {
        RowComesFrom(before, run, n - 1, i);
        assert i < |before| ==> Stamped(before[i], runs);
      }
    }
  }

  /** Every row of a reachable table was stamped by a run of the history that read its repository. */
  lemma {:induction false} EveryRowIsStamped(runs: seq<ApiRun>)
    ensures forall i :: 0 <= i < |Exec([], runs)| ==> Stamped(Exec([], runs)[i], runs)
  {
    if runs != [] {
      var front, last := runs[..|runs| - 1], runs[|runs| - 1];
      EveryRowIsStamped(front);
      var before := Exec([], front);
      forall i | 0 <= i < |before|
        ensures Stamped(before[i], runs)
      {
        assert Stamped(before[i], front);
      }
      FactsStamp(before, runs, last, |last.facts|);
    }
  }

  /** Every run of the history that read the repository started more than a millisecond before this one. */
  ghost predicate Spaced(history: seq<ApiRun>, repository: string, startedAt: int) {
    forall run :: run in history && Reads(run, repository) ==> run.startedAt + ONE_MILLISECOND < startedAt
  }

  /**
   * Convergence over any history: a repository whose reconciliation completes, in a run started more than a
   * millisecond after every earlier run that read it, ends with exactly the unsuppressed paths of its fact.
   */
  lemma ConvergesOverAnyHistory(history: seq<ApiRun>, run: ApiRun, k: nat)
    requires OneFactPerRepository(run.facts) && k < |run.facts|
    requires Spaced(history, run.facts[k].repository, run.startedAt)
    requires var outcome := AtFact(AfterFacts(Exec([], history), run, k), run, k).1; outcome.Done? && !outcome.sweepSkipped
    ensures var fact := run.facts[k];
            LivePaths(AfterRun(Exec([], history), run), fact.repository) == WantedPaths(fact, run.hidden(fact.repository))
  {
    var rows, repository := Exec([], history), run.facts[k].repository;
    EveryRowIsStamped(history);
    forall i | 0 <= i < |rows| && InScope(rows[i], ApiScope(repository), ApiKey(repository))
      ensures rows[i].mark.value.lastSeen < run.startedAt
    {
      assert Stamped(rows[i], history);
    }
    EveryRepositoryConvergesAlone(rows, run, k);
  }

  // ── suppression ────────────────────────────────────────────────────────────

  /** No live row of the repository's key carries the fingerprint. */
  ghost predicate Gone(rows: seq<Api>, repository: string, fingerprint: string) {
    forall i :: 0 <= i < |rows| && InScope(rows[i], ApiScope(repository), ApiKey(repository)) ==> rows[i].mark.value.fingerprint != fingerprint
  }

  lemma {:induction false} FactsKeepGone(rows: seq<Api>, run: ApiRun, n: nat, repository: string, fingerprint: string)
    requires n <= |run.facts| && Gone(rows, repository, fingerprint) && fingerprint in run.hidden(repository)
    ensures Gone(AfterFacts(rows, run, n), repository, fingerprint)
  {
    if n > 0 {
      FactsKeepGone(rows, run, n - 1, repository, fingerprint);
      var before, after := AfterFacts(rows, run, n - 1), AfterFacts(rows, run, n);
      forall i | 0 <= i < |after| && InScope(after[i], ApiScope(repository), ApiKey(repository))
        ensures after[i].mark.value.fingerprint != fingerprint
      {
        RowComesFrom(before, run, n - 1, i);
      }
    }
  }

  /** A specification suppressed and gone stays gone through every later run that still hides it. */
  lemma {:induction false} SuppressedApiStaysGone(rows: seq<Api>, runs: seq<ApiRun>, repository: string,
                                                  fingerprint: string)
    requires Gone(rows, repository, fingerprint) && forall run :: run in runs ==> fingerprint in run.hidden(repository)
    ensures Gone(Exec(rows, runs), repository, fingerprint)
  {
    if runs != [] {
      var last := runs[|runs| - 1];
      assert last in runs;
      SuppressedApiStaysGone(rows, runs[..|runs| - 1], repository, fingerprint);
      FactsKeepGone(Exec(rows, runs[..|runs| - 1]), last, |last.facts|, repository, fingerprint);
    }
  }
}
