/** Pass one over API contracts: which files of a repository are specifications. */
module SpecFiles {
  import opened Wrappers
  import opened Facts
  import opened Extraction
  import opened FactRuns
  import opened Apis

  const MAX_SPEC_CANDIDATES := 20

  /** Sniffing always understands a file: either it is a specification or it is not. */
  function Sniffed(sniff: (string, string) -> Option<Spec>): (string, string) -> Parsed<Option<Spec>> {
    (path, text) => Parsed(sniff(path, text), true)
  }

  function SpecInput(paths: seq<string>, sizes: map<string, int>, truncated: bool, fetch: string -> Fetched,
                     isCandidate: string -> bool, sniff: (string, string) -> Option<Spec>): Input<Option<Spec>>
  {
    Input(paths, sizes, truncated, fetch, isCandidate, MAX_SPEC_CANDIDATES, Sniffed(sniff))
  }

  /** The specification at a path, if it can be fetched and is one. */
  function SpecAt(input: Input<Option<Spec>>, path: string): Option<Spec> {
    match input.fetch(path)
    case Content(text) => input.parse(path, text).value
    case _ => None
  }

  function SpecsAt(input: Input<Option<Spec>>, paths: seq<string>): seq<Spec> {
    if paths == [] then []
    else
      var before := SpecsAt(input, paths[..|paths| - 1]);
      match SpecAt(input, paths[|paths| - 1])
      case Some(spec) => before + [spec]
      case None => before
  }

  lemma SpecsOneMore(input: Input<Option<Spec>>, paths: seq<string>, n: nat)
    requires n < |paths|
    ensures SpecsAt(input, paths[..n + 1])
            == match SpecAt(input, paths[n]) case Some(spec) => SpecsAt(input, paths[..n]) + [spec] case None => SpecsAt(input, paths[..n])
  {
    assert paths[..n + 1][..n] == paths[..n];
  }

  method ExtractSpecs(paths: seq<string>, sizes: map<string, int>, truncated: bool, fetch: string -> Fetched,
                      isCandidate: string -> bool, sniff: (string, string) -> Option<Spec>) returns (specs: seq<Spec>, inspection: Inspection)
    ensures var input := SpecInput(paths, sizes, truncated, fetch, isCandidate, sniff);
            specs == SpecsAt(input, Candidates(input)) && inspection == Inspect(input, Candidates(input))
  {
    var input := SpecInput(paths, sizes, truncated, fetch, isCandidate, sniff);
    var candidates;
    candidates, inspection := OpenTree(input);
    specs := [];
    for i := 0 to |candidates|
      invariant specs == SpecsAt(input, candidates[..i]) && inspection == Inspect(input, candidates[..i])
    {
      InspectOneMore(input, candidates, i);
      SpecsOneMore(input, candidates, i);
      var fetched := fetch(candidates[i]);
      match fetched
      case Absent =>
      case Unreadable => inspection := inspection.MarkIncomplete(READ_FAILED);
      case Content(text) =>
        var sniffed := sniff(candidates[i], text);
        if sniffed.Some? {
          specs := specs + [sniffed.value];
        }
    }
    WholePrefix(candidates);
  }

  /** Specifications keep the order of their files. */
  lemma {:induction false} SpecsInOrder(input: Input<Option<Spec>>, a: seq<string>, b: seq<string>)
    ensures SpecsAt(input, a + b) == SpecsAt(input, a) + SpecsAt(input, b)
  {
    if b == [] {
      assert a + b == a;
    } else {
      var front := b[..|b| - 1];
      assert (a + b)[..|a + b| - 1] == a + front;
      SpecsInOrder(input, a, front);
    }
  }

  lemma {:induction false} SpecsAreThoseAtThePaths(input: Input<Option<Spec>>, paths: seq<string>, spec: Spec)
    ensures spec in SpecsAt(input, paths) <==> exists p :: p in paths && SpecAt(input, p) == Some(spec)
  {
    if paths != [] {
      var front, last := paths[..|paths| - 1], paths[|paths| - 1];
      SpecsAreThoseAtThePaths(input, front, spec);
      SplitLast(paths);
      assert forall p :: p in paths <==> p in front || p == last;
      assert spec in SpecsAt(input, paths) <==> spec in SpecsAt(input, front) || SpecAt(input, last) == Some(spec);
    }
  }

  /**
   * `path` is a specification of the tree: listed, not vendored, not oversized, a candidate by name, and one by
   * content.
   */
  predicate IsSpecOf(input: Input<Option<Spec>>, path: string, spec: Spec) {
    && Listed(input, path)
    && input.fetch(path).Content? && input.parse(path, input.fetch(path).text).value == Some(spec)
  }

  /** A complete extraction holds exactly the specifications of the tree. */
  lemma CompleteSpecsExactly(input: Input<Option<Spec>>, spec: Spec)
    requires Inspect(input, Candidates(input)).complete
    ensures spec in SpecsAt(input, Candidates(input)) <==> exists p :: IsSpecOf(input, p, spec)
  {
    CompleteExactly(input);
    SpecsAreThoseAtThePaths(input, Shortlist(input), spec);
    if p :| p in Shortlist(input) && SpecAt(input, p) == Some(spec) {
      assert IsSpecOf(input, p, spec);
    }
    if p :| IsSpecOf(input, p, spec) {
      assert p in Shortlist(input);
    }
  }

  /**
   * From tree to table: once the last sync of a repository to land extracted what it saw, and the stored fact's
   * reconciliation finishes and sweeps without overlap, the repository's live APIs are exactly the unsuppressed
   * specifications of the tree, by path.
   */
  lemma LiveApisAreTheSpecsOfTheTree(input: Input<Option<Spec>>, store: FactStore<seq<Spec>>,
                                     syncs: seq<Sync<seq<Spec>>>,
                                     n: nat, fact: ApisFact, rows: seq<Api>, organization: string,
                                     hidden: set<string>, startedAt: int, calls: nat, path: string)
    requires LeftBehind(fact, store, syncs, n)
    requires syncs[n].extract() == (SpecsAt(input, Candidates(input)), Inspect(input, Candidates(input)))
    requires var outcome := ReconciledApis(rows, organization, fact, hidden, startedAt, calls).1;
             outcome.Done? && !outcome.sweepSkipped
    requires UnseenSince(rows, fact.repository, startedAt)
    ensures path in LivePaths(ReconciledApis(rows, organization, fact, hidden, startedAt, calls).0, fact.repository)
            <==> exists p, spec :: IsSpecOf(input, p, spec) && spec.path == path && ApiFingerprint(spec) !in hidden
  {
    StoredFactRetractsIff(fact, store, syncs, n);
    ApisConverge(rows, organization, fact, hidden, startedAt, calls);
    var kept := UnsuppressedSpecs(fact.data, hidden);
    if s :| s in kept && s.path == path {
      CompleteSpecsExactly(input, s);
      var p :| IsSpecOf(input, p, s);
    }
    if p, spec :| IsSpecOf(input, p, spec) && spec.path == path && ApiFingerprint(spec) !in hidden {
      CompleteSpecsExactly(input, spec);
      assert spec in kept;
    }
  }
}
