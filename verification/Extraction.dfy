/**
 * Pass one: reading a repository's manifests into a fact, and when a stored fact makes reading them again
 * unnecessary.
 */
module Extraction {
  import opened Wrappers
  import opened Detect
  import opened Facts
  import opened Libraries

  const MAX_FILE_BYTES := 262144
  const MAX_MANIFESTS := 60

  /** What asking the host for a file can yield. */
  datatype Fetched = Content(text: string) | Absent | Unreadable

  /** What a parser makes of a file; when it does not understand all of it, `value` is what it did understand. */
  datatype Parsed<+M> = Parsed(value: M, understood: bool)

  /** The tree listing, the means to read it, and which files an extractor wants, at most `ceiling` of them. */
  datatype Input<M> = Input(paths: seq<string>, sizes: map<string, int>, truncated: bool, fetch: string -> Fetched,
                            matches: string -> bool, ceiling: nat, parse: (string, string) -> Parsed<M>)

  datatype Manifest = Manifest(published: seq<PublishedPackage>, required: seq<RequiredPackage>)

  /** A file whose reported size is too large was generated, not written. */
  predicate Readable<M>(input: Input<M>, path: string) {
    path !in input.sizes || input.sizes[path] <= MAX_FILE_BYTES
  }

  function IsCandidate<M>(input: Input<M>): string -> bool {
    path => !IsVendored(path) && Readable(input, path) && input.matches(path)
  }

  function Shortlist<M>(input: Input<M>): seq<string> {
    Filter(IsCandidate(input), input.paths)
  }

  /** What is read: the shortlist, cut at the ceiling. */
  function Candidates<M>(input: Input<M>): (r: seq<string>)
    ensures r <= Shortlist(input) && |r| <= input.ceiling
    ensures |Shortlist(input)| <= input.ceiling ==> r == Shortlist(input)
    ensures |Shortlist(input)| > input.ceiling ==> |r| == input.ceiling
  {
    var all := Shortlist(input);
    if |all| > input.ceiling then all[..input.ceiling] else all
  }

  /** What is known to be missing before anything is read. */
  function BeforeReading<M>(input: Input<M>): Inspection {
    var listed := if input.truncated then COMPLETE.MarkIncomplete(TREE_TRUNCATED) else COMPLETE;
    if |Shortlist(input)| > input.ceiling then listed.MarkIncomplete(TOO_MANY_CANDIDATES) else listed
  }

  function AfterReading<M>(input: Input<M>, path: string, before: Inspection): Inspection {
    match input.fetch(path)
    case Absent => before
    case Unreadable => before.MarkIncomplete(READ_FAILED)
    case Content(text) => if input.parse(path, text).understood then before else before.MarkIncomplete(PARSE_FAILED)
  }

  function Inspect<M>(input: Input<M>, paths: seq<string>): Inspection {
    if paths == [] then BeforeReading(input)
    else AfterReading(input, paths[|paths| - 1], Inspect(input, paths[..|paths| - 1]))
  }

  lemma InspectOneMore<M>(input: Input<M>, paths: seq<string>, n: nat)
    requires n < |paths|
    ensures Inspect(input, paths[..n + 1]) == AfterReading(input, paths[n], Inspect(input, paths[..n]))
  {
    assert paths[..n + 1][..n] == paths[..n];
  }

  /** What every extractor does before its first read: the files to read, and what is already known to be missing. */
  method OpenTree<M>(input: Input<M>) returns (candidates: seq<string>, inspection: Inspection)
    ensures candidates == Candidates(input) && inspection == BeforeReading(input)
  {
    inspection := COMPLETE;
    if input.truncated {
      inspection := inspection.MarkIncomplete(TREE_TRUNCATED);
    }
    candidates := Shortlist(input);
    if |candidates| > input.ceiling {
      inspection := inspection.MarkIncomplete(TOO_MANY_CANDIDATES);
      candidates := candidates[..input.ceiling];
    }
  }

  // ── the packages extractor ─────────────────────────────────────────────────

  /** The manifest a path yields, if it can be read and understood. */
  function ManifestAt(input: Input<Manifest>, path: string): Option<Manifest> {
    match input.fetch(path)
    case Content(text) => (var p := input.parse(path, text); if p.understood then Some(p.value) else None)
    case _ => None
  }

  function Gathered(input: Input<Manifest>, paths: seq<string>): PackagesFact {
    if paths == [] then PackagesFact([], [])
    else
      var before := Gathered(input, paths[..|paths| - 1]);
      match ManifestAt(input, paths[|paths| - 1])
      case Some(m) => PackagesFact(before.published + m.published, before.required + m.required)
      case None => before
  }

  lemma GatherOneMore(input: Input<Manifest>, paths: seq<string>, n: nat)
    requires n < |paths|
    ensures var before := Gathered(input, paths[..n]);
            Gathered(input, paths[..n + 1]) == match ManifestAt(input, paths[n])
                                               case Some(m) => PackagesFact(before.published + m.published, before.required + m.required)
                                               case None => before
  {
    assert paths[..n + 1][..n] == paths[..n];
  }

  /** Reads every candidate manifest; anything it fails to inspect costs the fact its authority to retract. */
  method Extract(input: Input<Manifest>) returns (fact: PackagesFact, inspection: Inspection)
    requires input.ceiling == MAX_MANIFESTS
    ensures fact == Gathered(input, Candidates(input)) && inspection == Inspect(input, Candidates(input))
  {
    var candidates;
    candidates, inspection := OpenTree(input);
    fact := PackagesFact([], []);
    for i := 0 to |candidates|
      invariant fact == Gathered(input, candidates[..i]) && inspection == Inspect(input, candidates[..i])
    {
      InspectOneMore(input, candidates, i);
      GatherOneMore(input, candidates, i);
      var fetched := input.fetch(candidates[i]);
      match fetched
      case Absent =>
      case Unreadable => inspection := inspection.MarkIncomplete(READ_FAILED);
      case Content(text) =>
        var manifest := input.parse(candidates[i], text);
        if manifest.understood {
          fact := PackagesFact(fact.published + manifest.value.published, fact.required + manifest.value.required);
        } else {
          inspection := inspection.MarkIncomplete(PARSE_FAILED);
        }
    }
    WholePrefix(candidates);
  }

  // ── what completeness means ────────────────────────────────────────────────

  predicate Inspected<M>(input: Input<M>, path: string) {
    match input.fetch(path)
    case Absent => true
    case Unreadable => false
    case Content(text) => input.parse(path, text).understood
  }

  ghost predicate AllInspected<M>(input: Input<M>, paths: seq<string>) {
    forall p :: p in paths ==> Inspected(input, p)
  }

  lemma OneMoreRead<M>(input: Input<M>, path: string, before: Inspection)
    requires before.complete <==> before.reasons == []
    ensures AfterReading(input, path, before).complete <==> before.complete && Inspected(input, path)
    ensures AfterReading(input, path, before).complete <==> AfterReading(input, path, before).reasons == []
  {
  }

  lemma {:induction false} ReadIsComplete<M>(input: Input<M>, paths: seq<string>)
    ensures Inspect(input, paths).complete <==> BeforeReading(input).complete && AllInspected(input, paths)
    ensures Inspect(input, paths).complete <==> Inspect(input, paths).reasons == []
  {
    if paths != [] {
      var front, last := paths[..|paths| - 1], paths[|paths| - 1];
      ReadIsComplete(input, front);
      OneMoreRead(input, last, Inspect(input, front));
      SplitLast(paths);
      assert AllInspected(input, paths) <==> AllInspected(input, front) && Inspected(input, last);
    }
  }

  /**
   * An extraction is complete exactly when the listing was not truncated, the shortlist fits the ceiling and
   * every file on it was read and understood or found absent; and only a complete one records no reason.
   */
  lemma CompleteExactly<M>(input: Input<M>)
    ensures var r := Inspect(input, Candidates(input));
            && (r.complete <==> && !input.truncated && |Shortlist(input)| <= input.ceiling
                                && AllInspected(input, Shortlist(input)))
            && (r.complete <==> r.reasons == [])
  {
    ReadIsComplete(input, Candidates(input));
  }

  /** The file at the path can be read and is understood, and publishes the package. */
  predicate FilePublishes(input: Input<Manifest>, path: string, p: PublishedPackage) {
    && input.fetch(path).Content? && input.parse(path, input.fetch(path).text).understood
    && p in input.parse(path, input.fetch(path).text).value.published
  }

  predicate FileRequires(input: Input<Manifest>, path: string, r: RequiredPackage) {
    && input.fetch(path).Content? && input.parse(path, input.fetch(path).text).understood
    && r in input.parse(path, input.fetch(path).text).value.required
  }

  lemma FileGathered(input: Input<Manifest>, path: string, p: PublishedPackage, r: RequiredPackage)
    ensures FilePublishes(input, path, p)
            <==> ManifestAt(input, path).Some? && p in ManifestAt(input, path).value.published
    ensures FileRequires(input, path, r)
            <==> ManifestAt(input, path).Some? && r in ManifestAt(input, path).value.required
  {
  }

  ghost predicate SomePublishes(input: Input<Manifest>, paths: seq<string>, p: PublishedPackage) {
    exists path :: path in paths && FilePublishes(input, path, p)
  }

  ghost predicate SomeRequires(input: Input<Manifest>, paths: seq<string>, r: RequiredPackage) {
    exists path :: path in paths && FileRequires(input, path, r)
  }

  /** What is gathered is exactly what the readable, understood files declare. */
  lemma {:induction false} GatheredExactly(input: Input<Manifest>, paths: seq<string>, p: PublishedPackage,
                                           r: RequiredPackage)
    ensures p in Gathered(input, paths).published <==> SomePublishes(input, paths, p)
    ensures r in Gathered(input, paths).required <==> SomeRequires(input, paths, r)
  {
    hide FilePublishes, FileRequires, ManifestAt;
    if paths != [] {
      var front, last := paths[..|paths| - 1], paths[|paths| - 1];
      GatheredExactly(input, front, p, r);
      FileGathered(input, last, p, r);
      SplitLast(paths);
      assert forall path :: path in paths <==> path in front || path == last;
    }
  }

  /** What is gathered keeps the order of the files, and within a file the order it declares things in. */
  lemma {:induction false} GatheredInOrder(input: Input<Manifest>, a: seq<string>, b: seq<string>)
    ensures Gathered(input, a + b).published == Gathered(input, a).published + Gathered(input, b).published
    ensures Gathered(input, a + b).required == Gathered(input, a).required + Gathered(input, b).required
    ensures |b| == 1 && input.fetch(b[0]).Content? && input.parse(b[0], input.fetch(b[0]).text).understood ==>
              var m := input.parse(b[0], input.fetch(b[0]).text).value;
              Gathered(input, b) == PackagesFact(m.published, m.required)
  {
    if b == [] {
      assert a + b == a;
    } else {
      var front := b[..|b| - 1];
      assert (a + b)[..|a + b| - 1] == a + front;
      GatheredInOrder(input, a, front);
    }
  }

  /** The file is one of the tree's manifests: listed, not vendored, not oversized and wanted by its name. */
  predicate Listed<M>(input: Input<M>, path: string) {
    path in input.paths && !IsVendored(path) && (path in input.sizes ==> input.sizes[path] <= MAX_FILE_BYTES) && input.matches(path)
  }

  /** A complete fact holds exactly what the tree's readable, understood manifests declare. */
  lemma CompleteHoldsTheManifests(input: Input<Manifest>, p: PublishedPackage, r: RequiredPackage)
    requires Inspect(input, Candidates(input)).complete
    ensures p in Gathered(input, Candidates(input)).published
            <==> exists path :: Listed(input, path) && FilePublishes(input, path, p)
    ensures r in Gathered(input, Candidates(input)).required
            <==> exists path :: Listed(input, path) && FileRequires(input, path, r)
  {
    hide FilePublishes, FileRequires, Gathered, IsVendored;
    CompleteExactly(input);
    GatheredExactly(input, Candidates(input), p, r);
    assert forall path :: path in Candidates(input) <==> Listed(input, path);
  }

  // ── why an extraction is incomplete ────────────────────────────────────────

  predicate Misread<M>(input: Input<M>, path: string) {
    input.fetch(path).Content? && !input.parse(path, input.fetch(path).text).understood
  }

  ghost predicate SomeUnreadable<M>(input: Input<M>, paths: seq<string>) {
    exists p :: p in paths && input.fetch(p).Unreadable?
  }

  ghost predicate SomeMisread<M>(input: Input<M>, paths: seq<string>) {
    exists p :: p in paths && Misread(input, p)
  }

  lemma ReasonAdded<M>(input: Input<M>, path: string, before: Inspection, reason: string)
    ensures reason in AfterReading(input, path, before).reasons
            <==> || reason in before.reasons || (reason == READ_FAILED && input.fetch(path).Unreadable?)
                 || (reason == PARSE_FAILED && Misread(input, path))
  {
  }

  lemma ReasonsBefore<M>(input: Input<M>, reason: string)
    ensures reason in BeforeReading(input).reasons
            <==> || (reason == TREE_TRUNCATED && input.truncated)
                 || (reason == TOO_MANY_CANDIDATES && |Shortlist(input)| > input.ceiling)
  {
    hide Shortlist;
  }

  /** An extraction records a reason exactly when that is what happened to the listing or to some file it read. */
  lemma {:induction false} ReasonsExactly<M>(input: Input<M>, paths: seq<string>, reason: string)
    ensures reason in Inspect(input, paths).reasons
            <==> || (reason == TREE_TRUNCATED && input.truncated)
                 || (reason == TOO_MANY_CANDIDATES && |Shortlist(input)| > input.ceiling)
                 || (reason == READ_FAILED && SomeUnreadable(input, paths))
                 || (reason == PARSE_FAILED && SomeMisread(input, paths))
  {
    hide AfterReading, BeforeReading, Shortlist, Misread;
    ReasonsBefore(input, reason);
    if paths != [] {
      var front, last := paths[..|paths| - 1], paths[|paths| - 1];
      ReasonsExactly(input, front, reason);
      ReasonAdded(input, last, Inspect(input, front), reason);
      SplitLast(paths);
      assert forall p :: p in paths <==> p in front || p == last;
    }
  }

  // ── the guard ──────────────────────────────────────────────────────────────

  type FactStore<D> = map<string, Fact<D>>

  /**
   * One sync reaching one extractor: the tree it saw, the extractor set to work on that tree, and whether reading
   * the stored fact and writing the new one succeed.
   */
  datatype Sync<!D> = Sync(organization: string, repository: string, treeSha: string, version: int,
                           extract: () -> (D, Inspection), now: int, loads: bool, stores: bool)
  {
    function Data(): D {
      extract().0
    }

    function Verdict(): Inspection {
      extract().1
    }
  }

  /** Same tree, same extractor, and the stored fact was complete: it cannot have changed. */
  predicate Fresh<D>(s: FactStore<D>, e: Sync<D>) {
    && e.repository in s && s[e.repository].complete
    && s[e.repository].treeSha != "" && e.treeSha != ""
    && s[e.repository].treeSha == e.treeSha && s[e.repository].version == e.version
  }

  function Stored<D>(e: Sync<D>): Fact<D> {
    Fact(e.organization, e.repository, e.Data(), true, e.Verdict(), e.treeSha, e.Verdict().complete, e.version, e.now)
  }

  function Synced<D>(s: FactStore<D>, e: Sync<D>): FactStore<D> {
    if !e.loads || Fresh(s, e) || !e.stores then s else s[e.repository := Stored(e)]
  }

  class FactTable<D> {
    var stored: FactStore<D>

    constructor ()
      ensures stored == map[]
    {
      stored := map[];
    }

    /** Reports whether anything changed. */
    method ExtractOne(e: Sync<D>) returns (changed: bool)
      modifies this
      ensures stored == Synced(old(stored), e)
      ensures changed <==> e.loads && !Fresh(old(stored), e) && e.stores
    {
      if !e.loads {
        return false;
      }
      if e.repository in stored {
        var existing := stored[e.repository];
        if existing.complete && existing.treeSha != "" && e.treeSha != "" && existing.treeSha == e.treeSha && existing.version == e.version {
          return false;
        }
      }
      var (data, inspection) := e.extract();
      if !e.stores {
        return false;
      }
      stored := stored[e.repository := Fact(e.organization, e.repository, data, true, inspection, e.treeSha,
                                            inspection.complete,
                                            e.version, e.now)];
      return true;
    }
  }

  /** What an extractor of some version completely reads off a repository's tree, and who owns the repository. */
  datatype World<!D> = World(ideal: (string, string, int) -> D, owner: string -> string)

  /** A complete extraction is a function of the tree and the extractor version, and records no reason. */
  ghost predicate Faithful<D(!new)>(e: Sync<D>, world: World<D>) {
    && e.organization == world.owner(e.repository)
    && (e.Verdict().complete ==> e.Verdict().reasons == [] && (e.treeSha != "" ==> e.Data() == world.ideal(e.repository, e.treeSha, e.version)))
  }

  function SyncedAll<D>(s: FactStore<D>, events: seq<Sync<D>>): FactStore<D> {
    if events == [] then s else Synced(SyncedAll(s, events[..|events| - 1]), events[|events| - 1])
  }

  /** Every fact marked complete is what its version yields on its tree. */
  ghost predicate SoundCache<D(!new)>(s: FactStore<D>, world: World<D>) {
    forall r :: r in s ==>
                  && s[r].repository == r && s[r].decodes && s[r].organization == world.owner(r) && s[r].recorded.complete == s[r].complete
                  && (s[r].complete ==> s[r].recorded == COMPLETE
                                        && (s[r].treeSha != "" ==> s[r].data == world.ideal(r, s[r].treeSha, s[r].version)))
  }

  /** Over any sequence of syncs, skipped and failed ones included, the store is a sound cache. */
  lemma {:induction false} CacheStaysSound<D(!new)>(s: FactStore<D>, events: seq<Sync<D>>, world: World<D>)
    requires SoundCache(s, world) && forall e :: e in events ==> Faithful(e, world)
    ensures SoundCache(SyncedAll(s, events), world)
    decreases |events|
  {
    if events != [] {
      var front, last := events[..|events| - 1], events[|events| - 1];
      assert last in events;
      CacheStaysSound(s, front, world);
    }
  }

  /** Skipping leaves the store as a complete re-extraction would, apart from the extraction time. */
  lemma SkippingEqualsReextracting<D(!new)>(events: seq<Sync<D>>, e: Sync<D>, world: World<D>)
    requires forall x :: x in events ==> Faithful(x, world)
    requires Faithful(e, world) && e.Verdict().complete
    requires Fresh(SyncedAll(map[], events), e)
    ensures var s := SyncedAll(map[], events);
            && Synced(s, e) == s
            && s[e.repository].(extractedAt := e.now) == Stored(e)
  {
    CacheStaysSound(map[], events, world);
  }

  /** A stored fact can be trusted to retract exactly when the extraction behind it was complete. */
  lemma StoredFactReadsAsExtracted<D>(e: Sync<D>)
    ensures Reading(Stored(e)).complete <==> e.Verdict().complete
  {
  }

  // ── reading one commit ─────────────────────────────────────────────────────

  /**
   * What a sync sees of a tree: its listing, perhaps cut short, and of each file what the tree holds or a failure.
   * Files are asked for by branch, so this holds as long as the branch does not move between listing and reading.
   */
  ghost predicate Observes<M(!new)>(input: Input<M>, tree: Input<M>) {
    && (forall path :: input.matches(path) == tree.matches(path)) && input.ceiling == tree.ceiling
    && (forall path, text :: input.parse(path, text) == tree.parse(path, text))
    && (!input.truncated ==> input.paths == tree.paths && input.sizes == tree.sizes)
    && (forall path :: input.fetch(path) == tree.fetch(path) || input.fetch(path) == Unreadable)
  }

  lemma {:induction false} FilterAgrees<T(!new)>(p: T -> bool, q: T -> bool, s: seq<T>)
    requires forall x :: x in s ==> p(x) == q(x)
    ensures Filter(p, s) == Filter(q, s)
  {
    if s != [] {
      FilterAgrees(p, q, s[..|s| - 1]);
    }
  }

  lemma {:induction false} GatheredAgrees(input: Input<Manifest>, tree: Input<Manifest>, paths: seq<string>)
    requires Observes(input, tree) && AllInspected(input, paths)
    ensures Gathered(input, paths) == Gathered(tree, paths)
  {
    if paths != [] {
      var front, last := paths[..|paths| - 1], paths[|paths| - 1];
      GatheredAgrees(input, tree, front);
      assert last in paths && Inspected(input, last);
    }
  }

  /** A complete extraction through such a sync is the tree's own, whatever failed on the way to other syncs. */
  lemma CompleteReadIsTheTrees(input: Input<Manifest>, tree: Input<Manifest>)
    requires Observes(input, tree) && Inspect(input, Candidates(input)).complete
    ensures Gathered(input, Candidates(input)) == Gathered(tree, Candidates(tree))
  {
    CompleteExactly(input);
    FilterAgrees(IsCandidate(input), IsCandidate(tree), input.paths);
    assert Candidates(input) == Candidates(tree) == Shortlist(input);
    GatheredAgrees(input, tree, Candidates(input));
  }

  /** The packages extractor at work on what a sync sees. */
  function PackagesSync(organization: string, repository: string, treeSha: string, version: int, input: Input<Manifest>,
                        now: int, loads: bool, stores: bool): Sync<PackagesFact>
  {
    Sync(organization, repository, treeSha, version,
         () => (Gathered(input, Candidates(input)), Inspect(input, Candidates(input))),
         now, loads, stores)
  }

  /** Every repository's tree as each extractor version reads it. */
  type Trees = (string, string, int) -> Input<Manifest>

  function PackagesWorld(trees: Trees, owner: string -> string): World<PackagesFact> {
    World((repository, sha, version) => Gathered(trees(repository, sha, version), Candidates(trees(repository, sha, version))), owner)
  }

  /** So a sync that observes the tree it names is one the cache may rely on. */
  lemma ObservingIsFaithful(organization: string, repository: string, treeSha: string, version: int,
                            input: Input<Manifest>,
                            now: int, loads: bool, stores: bool, trees: Trees, owner: string -> string)
    requires organization == owner(repository) && Observes(input, trees(repository, treeSha, version))
    ensures Faithful(PackagesSync(organization, repository, treeSha, version, input, now, loads, stores),
                     PackagesWorld(trees, owner))
  {
    var tree := trees(repository, treeSha, version);
    CompleteExactly(input);
    if Inspect(input, Candidates(input)).complete {
      CompleteReadIsTheTrees(input, tree);
    }
  }

  /**
   * The other side of the guard: a fact once stored as complete is kept through every later sync of the same tree
   * by the same version, right or wrong, so a branch that moved during one sync is noticed only when the tree
   * identifier changes.
   */
  lemma {:induction false} CompleteFactIsKept<D>(s: FactStore<D>, events: seq<Sync<D>>, repository: string)
    requires repository in s && s[repository].complete && s[repository].treeSha != ""
    requires forall e :: e in events && e.repository == repository ==>
                           e.treeSha == s[repository].treeSha && e.version == s[repository].version
    ensures repository in SyncedAll(s, events) && SyncedAll(s, events)[repository] == s[repository]
  {
    if events != [] {
      var front, last := events[..|events| - 1], events[|events| - 1];
      assert last in events;
      CompleteFactIsKept(s, front, repository);
    }
  }
}
