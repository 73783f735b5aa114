/** API contracts as a table: one row per repository and path of a specification, swept repository by repository. */
module Apis {
  import opened Wrappers
  import opened DerivedRows
  import opened Facts
  import opened Fingerprints
  import opened Relationships

  datatype SpecKind = OpenApi | AsyncApi | GraphQl | Grpc | UnknownSpec(text: string)

  datatype Spec = Spec(path: string, kind: SpecKind, title: string, version: string, operations: Option<int>,
                       ruleId: string, confidence: real)

  datatype ApiPlace = ApiPlace(repository: string, path: string)

  type Api = Row<ApiPlace, Spec>

  type ApisFact = Fact<seq<Spec>>

  function ApiKey(repository: string): string {
    "apidisc:v1:repo/" + repository
  }

  /** The rule and the path, and nothing a rename or a version bump would change. */
  function ApiFingerprint(spec: Spec): string {
    Fingerprint([spec.ruleId, spec.path])
  }

  function ApiRow(repository: string, seenAt: int, spec: Spec): Api {
    Row(ApiPlace(repository, spec.path), Some(Mark(ApiKey(repository), ApiFingerprint(spec), seenAt)), true, spec)
  }

  function ApiRows(repository: string, seenAt: int, specs: seq<Spec>): seq<Api> {
    seq(|specs|, i requires 0 <= i < |specs| => ApiRow(repository, seenAt, specs[i]))
  }

  predicate StorableApi(organization: string, row: Api) {
    organization != "" && row.place.repository != "" && row.place.path != "" && !row.content.kind.UnknownSpec?
  }

  function UnsuppressedSpecs(specs: seq<Spec>, hidden: set<string>): seq<Spec> {
    Filter(s => ApiFingerprint(s) !in hidden, specs)
  }

  function LandedApis(organization: string, rows: seq<Api>, calls: nat): (n: nat)
    ensures n <= |rows| && n <= calls
  {
    if rows == [] then 0
    else
      var last := |rows| - 1;
      var n := LandedApis(organization, rows[..last], calls);
      if n == last && n < calls && StorableApi(organization, rows[last]) then n + 1 else n
  }

  predicate InRepository(repository: string, place: ApiPlace) {
    place.repository == repository
  }

  function ApiScope(repository: string): ApiPlace -> bool {
    place => InRepository(repository, place)
  }

  /** One repository's reconciliation; `calls` is how many storage calls succeed before one fails. */
  function ReconciledApis(rows: seq<Api>, organization: string, fact: ApisFact, hidden: set<string>, startedAt: int,
                          calls: nat)
    : (r: (seq<Api>, Outcome))
  {
    if calls == 0 then (rows, Failed(0))
    else
      var claims := ApiRows(fact.repository, startedAt + ONE_MILLISECOND, UnsuppressedSpecs(fact.data, hidden));
      var n := LandedApis(organization, claims, calls - 1);
      var written := PutAll(rows, claims[..n], ByPlace);
      if n < |claims| then (written, Failed(n))
      else if !Reading(fact).complete then (written, Done(n, true))
      else if n == calls - 1 || fact.repository == "" then (written, Failed(n))
      else (Sweep(written, ApiScope(fact.repository), ApiKey(fact.repository), startedAt), Done(n, false))
  }

  class ApiStore {
    var rows: seq<Api>

    constructor ()
      ensures rows == []
    {
      rows := [];
    }

    /** One API per repository and path: its row is refreshed, brought back if it was deleted, or created. */
    method UpsertDerivedApi(organization: string, row: Api) returns (ok: bool)
      modifies `rows
      ensures ok == StorableApi(organization, row)
      ensures rows == if ok then Put(old(rows), row, ByPlace) else old(rows)
    {
      ok := StorableApi(organization, row);
      if ok {
        var twin := Twin(rows, row, ByPlace);
        match twin
        case Some(i) => rows := rows[i := Row(rows[i].place, row.mark, true, row.content)];
        case None => rows := rows + [row];
      }
    }

    method WriteSpecs(organization: string, claims: seq<Api>, calls: nat) returns (landed: nat)
      modifies `rows
      ensures landed == LandedApis(organization, claims, calls) && rows == PutAll(old(rows), claims[..landed], ByPlace)
    {
      landed := 0;
      ghost var done: seq<Api> := [];
      while landed < |claims|
        invariant landed <= |claims| && done == claims[..landed]
        invariant LandedApis(organization, done, calls) == landed && rows == PutAll(old(rows), done, ByPlace)
      {
        PrefixGrows(claims, landed);
        NextApi(organization, done, claims[landed], calls);
        var ok := landed < calls;
        if ok {
          ok := UpsertDerivedApi(organization, claims[landed]);
        }
        if !ok {
          LandedApisStops(organization, done + [claims[landed]], claims, calls);
          return;
        }
        PutAllStep(old(rows), done, claims[landed], ByPlace);
        done, landed := done + [claims[landed]], landed + 1;
      }
      WholePrefix(claims);
    }

    method ReconcileApis(organization: string, fact: ApisFact, hidden: set<string>, startedAt: int, calls: nat)
      returns (outcome: Outcome)
      modifies `rows
      ensures (rows, outcome) == ReconciledApis(old(rows), organization, fact, hidden, startedAt, calls)
    {
      if calls == 0 {
        return Failed(0);
      }
      var claims := ApiRows(fact.repository, startedAt + ONE_MILLISECOND, UnsuppressedSpecs(fact.data, hidden));
      var landed := WriteSpecs(organization, claims, calls - 1);
      if landed < |claims| {
        return Failed(landed);
      }
      if !Reading(fact).complete {
        return Done(landed, true);
      }
      if landed == calls - 1 || fact.repository == "" {
        return Failed(landed);
      }
      rows := Sweep(rows, ApiScope(fact.repository), ApiKey(fact.repository), startedAt);
      return Done(landed, false);
    }
  }

  lemma NextApi(organization: string, done: seq<Api>, claim: Api, calls: nat)
    requires LandedApis(organization, done, calls) == |done|
    ensures LandedApis(organization, done + [claim], calls)
            == if |done| < calls && StorableApi(organization, claim) then |done| + 1 else |done|
  {
    assert (done + [claim])[..|done|] == done;
  }

  lemma {:induction false} LandedApisStops(organization: string, front: seq<Api>, claims: seq<Api>, calls: nat)
    requires front <= claims && LandedApis(organization, front, calls) < |front|
    ensures LandedApis(organization, claims, calls) == LandedApis(organization, front, calls)
    decreases |claims|
  {
    if |front| < |claims| {
      LandedApisStops(organization, front, claims[..|claims| - 1], calls);
    } else {
      assert front == claims;
    }
  }

  // ── what a reconciliation leaves ───────────────────────────────────────────

  ghost function LivePaths(rows: seq<Api>, repository: string): set<string> {
    set i | 0 <= i < |rows| && InScope(rows[i], ApiScope(repository), ApiKey(repository)) :: rows[i].place.path
  }

  /** Every live row of the repository's key was last observed before `startedAt`. */
  ghost predicate UnseenSince(rows: seq<Api>, repository: string, startedAt: int) {
    forall i :: 0 <= i < |rows| && InScope(rows[i], ApiScope(repository), ApiKey(repository)) ==> rows[i].mark.value.lastSeen < startedAt
  }

  function WantedPaths(fact: ApisFact, hidden: set<string>): set<string> {
    set s | s in UnsuppressedSpecs(fact.data, hidden) :: s.path
  }

  /** The table after every write of a fact landed and the sweep ran. */
  function SweptApis(rows: seq<Api>, repository: string, specs: seq<Spec>, startedAt: int): seq<Api> {
    Sweep(PutAll(rows, ApiRows(repository, startedAt + ONE_MILLISECOND, specs), ByPlace), ApiScope(repository),
          ApiKey(repository), startedAt)
  }

  lemma ApiRowsAreRecent(repository: string, specs: seq<Spec>, startedAt: int)
    ensures forall c :: c in ApiRows(repository, startedAt + ONE_MILLISECOND, specs) ==>
                          Recent(c, ApiScope(repository), ApiKey(repository), startedAt)
  {
  }

  lemma LivePathsAreWritten(rows: seq<Api>, repository: string, specs: seq<Spec>, startedAt: int, path: string)
    requires UnseenSince(rows, repository, startedAt) && path in LivePaths(SweptApis(rows, repository, specs, startedAt), repository)
    ensures exists s :: s in specs && s.path == path
  {
    var scope, key := ApiScope(repository), ApiKey(repository);
    var claims := ApiRows(repository, startedAt + ONE_MILLISECOND, specs);
    var after := SweptApis(rows, repository, specs, startedAt);
    WholePrefix(claims);
    ApiRowsAreRecent(repository, specs, startedAt);
    ReconciledExactly(rows, claims, ByPlace, scope, key, startedAt);
    assert after == Reconciled(rows, claims, |claims|, true, ByPlace, scope, key, startedAt);
    var i :| 0 <= i < |after| && InScope(after[i], scope, key) && after[i].place.path == path;
    assert i < |rows| ==> !Recent(rows[i], scope, key, startedAt);
    var c :| c in claims && Holds(after[i], c, ByPlace);
    var j :| 0 <= j < |claims| && claims[j] == c;
    assert specs[j] in specs;
  }

  lemma WrittenPathsAreLive(rows: seq<Api>, repository: string, specs: seq<Spec>, startedAt: int, spec: Spec)
    requires spec in specs
    ensures spec.path in LivePaths(SweptApis(rows, repository, specs, startedAt), repository)
  {
    ApiRowsAreRecent(repository, specs, startedAt);
    var j :| 0 <= j < |specs| && specs[j] == spec;
    PathIsLive(rows, ApiRows(repository, startedAt + ONE_MILLISECOND, specs), ApiScope(repository),
               ApiKey(repository), startedAt, j, repository);
  }

  /** A completed reconciliation leaves live, for its repository, exactly the unsuppressed spec paths it found. */
  lemma ApisConverge(rows: seq<Api>, organization: string, fact: ApisFact, hidden: set<string>, startedAt: int,
                     calls: nat)
    requires var outcome := ReconciledApis(rows, organization, fact, hidden, startedAt, calls).1; outcome.Done? && !outcome.sweepSkipped
    requires UnseenSince(rows, fact.repository, startedAt)
    ensures LivePaths(ReconciledApis(rows, organization, fact, hidden, startedAt, calls).0, fact.repository) == WantedPaths(fact, hidden)
  {
    var specs := UnsuppressedSpecs(fact.data, hidden);
    WholePrefix(ApiRows(fact.repository, startedAt + ONE_MILLISECOND, specs));
    var after := SweptApis(rows, fact.repository, specs, startedAt);
    assert ReconciledApis(rows, organization, fact, hidden, startedAt, calls).0 == after;
    forall path | path in LivePaths(after, fact.repository)
      ensures path in WantedPaths(fact, hidden)
    {
      LivePathsAreWritten(rows, fact.repository, specs, startedAt, path);
    }
    forall s | s in specs
      ensures s.path in LivePaths(after, fact.repository)
    {
      WrittenPathsAreLive(rows, fact.repository, specs, startedAt, s);
    }
  }

  /** A written spec's row survives the sweep, under the repository's key. */
  lemma PathIsLive(rows: seq<Api>, claims: seq<Api>, scope: ApiPlace -> bool, key: string, startedAt: int, j: nat,
                   repository: string)
    requires scope == ApiScope(repository) && key == ApiKey(repository) && j < |claims|
    requires forall c :: c in claims ==> Recent(c, scope, key, startedAt)
    ensures claims[j].place.path in LivePaths(Sweep(PutAll(rows, claims, ByPlace), scope, key, startedAt), repository)
  {
    var last := LastAt(claims, j);
    assert claims[last] in claims;
    var i := LastWriteHolds(rows, claims, ByPlace, last);
    var after := Sweep(PutAll(rows, claims, ByPlace), scope, key, startedAt);
    assert InScope(after[i], scope, key) && after[i].place.path == claims[j].place.path;
  }

  /** The last write at the same place as the `j`-th. */
  lemma {:induction false} LastAt(claims: seq<Api>, j: nat) returns (last: nat)
    requires j < |claims|
    ensures j <= last < |claims| && claims[last].place == claims[j].place
    ensures forall m :: last < m < |claims| ==> !Same(claims[m], claims[last], ByPlace)
  {
    last := |claims| - 1;
    while claims[last].place != claims[j].place
      invariant j <= last < |claims|
      decreases last
      invariant forall m :: last < m < |claims| ==> claims[m].place != claims[j].place
    {
      last := last - 1;
    }
  }

  /** One repository's reconciliation changes no row of another, whatever it found. */
  lemma OtherRepositoriesUntouched(rows: seq<Api>, organization: string, fact: ApisFact, hidden: set<string>,
                                   startedAt: int, calls: nat, i: nat)
    requires i < |rows| && rows[i].place.repository != fact.repository
    ensures var after := ReconciledApis(rows, organization, fact, hidden, startedAt, calls).0; i < |after| && after[i] == rows[i]
  {
    if calls > 0 {
      var claims := ApiRows(fact.repository, startedAt + ONE_MILLISECOND, UnsuppressedSpecs(fact.data, hidden));
      PutAllFrame(rows, claims[..LandedApis(organization, claims, calls - 1)], ByPlace, i);
    }
  }

  /** An incomplete fact, or a failed storage call, retires none of the repository's rows. */
  lemma IncompleteApisRetractNothing(rows: seq<Api>, organization: string, fact: ApisFact, hidden: set<string>,
                                     startedAt: int, calls: nat, i: nat)
    requires !Reading(fact).complete || ReconciledApis(rows, organization, fact, hidden, startedAt, calls).1.Failed?
    requires i < |rows| && rows[i].live
    ensures var after := ReconciledApis(rows, organization, fact, hidden, startedAt, calls).0; i < |after| && after[i].live
  {
    if calls > 0 {
      var claims := ApiRows(fact.repository, startedAt + ONE_MILLISECOND, UnsuppressedSpecs(fact.data, hidden));
      NoSweepNoRetraction(rows, claims[..LandedApis(organization, claims, calls - 1)], ByPlace);
    }
  }

  /** A spec path keeps its row whatever its title, version or rule become. */
  lemma PathKeepsItsRow(rows: seq<Api>, organization: string, fact: ApisFact, hidden: set<string>, startedAt: int,
                        calls: nat)
    requires Unique(rows, ByPlace)
    ensures var after := ReconciledApis(rows, organization, fact, hidden, startedAt, calls).0;
            && Unique(after, ByPlace) && |rows| <= |after|
            && forall i :: 0 <= i < |rows| ==> after[i].place == rows[i].place
  {
    if calls > 0 {
      var claims := ApiRows(fact.repository, startedAt + ONE_MILLISECOND, UnsuppressedSpecs(fact.data, hidden));
      var landed := claims[..LandedApis(organization, claims, calls - 1)];
      PutAllKeepsUnique(rows, landed, ByPlace);
      var after := ReconciledApis(rows, organization, fact, hidden, startedAt, calls).0;
      SweepKeepsUnique(PutAll(rows, landed, ByPlace), ByPlace, ApiScope(fact.repository), ApiKey(fact.repository),
                       startedAt);
      forall i | 0 <= i < |rows|
        ensures after[i].place == rows[i].place
      {
        PutAllKeepsIdentity(rows, landed, ByPlace, i);
      }
    }
  }
}
