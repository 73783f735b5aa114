/** Which resources a tree's configuration files name, and the claims a repository ends with because of them. */
module ConfigProperties {
  import opened Wrappers
  import opened AnyOrder
  import opened Facts
  import opened Text
  import opened Collector
  import opened ConfigFiles
  import opened Extraction
  import opened FactRuns
  import opened Resources
  import opened ResourceProperties

  // ── what one file names ────────────────────────────────────────────────────

  /** A connection-like variable's value parses to a shared locator of some engine. */
  ghost predicate EntryNames(env: map<string, string>, reader: Reader, f: ResourceFinding) {
    exists name :: name in env && ValueNames(name, env[name], reader, f)
  }

  /** What is said of an instance that a connection string points at. */
  predicate SaysConnection(f: ResourceFinding) {
    && !f.scoped && f.displayName == f.locator.DisplayName() && f.ruleId == "resource.dsn" && f.confidence == 0.85
    && f.evidence == []
  }

  predicate ValueNames(name: string, value: string, reader: Reader, f: ResourceFinding) {
    && value != "" && LooksLikeConnectionKey(name) && reader.dsn(value) == Some(f.locator)
    && f.locator.IsShared() && f.locator.engine != "" && SaysConnection(f)
  }

  /** A compose service is an engine, which the repository runs for itself, or its environment names a resource. */
  ghost predicate ServiceNames(service: ComposeService, reader: Reader, f: ResourceFinding) {
    || (service.engine != "" && f == LocalEngine(service.engine, service.name + " (local)", COMPOSE_IMAGE))
    || EntryNames(service.environment, reader, f)
  }

  /** A subchart with an engine, under its alias if it has one. */
  predicate SubchartNames(subchart: Subchart, f: ResourceFinding) {
    && subchart.engine != "" && f.locator.engine == subchart.engine && f.ruleId == HELM_SUBCHART && f.scoped
    && f.displayName == (if subchart.alias == "" then subchart.name else subchart.alias) + " (subchart)"
    && f == LocalEngine(f.locator.engine, f.displayName, f.ruleId)
  }

  ghost predicate FileNames(file: ConfigFile, reader: Reader, f: ResourceFinding) {
    match file
    case Compose(services, isTest) => exists s :: s in services && ServiceNames(s, reader, f)
    case HelmChart(subcharts) => exists s :: s in subcharts && SubchartNames(s, f)
    case K8sManifest(serviceNames, ingressHosts, environment) => EntryNames(environment, reader, f)
    case Values(environment) => EntryNames(environment, reader, f)
  }

  /** The file at a path, if it can be fetched and its findings are kept. */
  function FileAt(input: Input<ConfigFile>, path: string): Option<ConfigFile> {
    match input.fetch(path)
    case Content(text) =>
      (var parsed := input.parse(path, text);
       if parsed.understood || parsed.value.K8sManifest? then Some(parsed.value) else None)
    case _ => None
  }

  ghost predicate PathNames(input: Input<ConfigFile>, path: string, reader: Reader, f: ResourceFinding) {
    FileAt(input, path).Some? && FileNames(FileAt(input, path).value, reader, f)
  }

  // ── what a collector holds ─────────────────────────────────────────────────

  /** A finding as its file states it, before evidence is attached: its key says all of it. */
  predicate Plain(f: ResourceFinding) {
    && f.evidence == [] && f.locator.engine != ""
    && if f.scoped then
         && f.locator == Locator(f.locator.engine, "", None, "") && f.confidence == 0.7
         && (|| (f.ruleId == "resource.compose_image" && HasSuffix(f.displayName, " (local)"))
             || (f.ruleId == "resource.helm_subchart" && HasSuffix(f.displayName, " (subchart)")))
       else SaysConnection(f)
  }

  function WithoutEvidence(f: ResourceFinding): ResourceFinding {
    f.(evidence := [])
  }

  ghost predicate Tidy(resources: map<ResourceKey, ResourceFinding>) {
    forall k :: k in resources ==> KeyOf(resources[k]) == k && Plain(WithoutEvidence(resources[k]))
  }

  /** The collector holds the finding, whatever evidence it gathered for it. */
  predicate Holds(resources: map<ResourceKey, ResourceFinding>, f: ResourceFinding) {
    KeyOf(f) in resources && WithoutEvidence(resources[KeyOf(f)]) == f
  }

  lemma BeforeLast(name: string, suffix: string)
    requires |suffix| > 1
    ensures HasSuffix(name, suffix) ==> |name| > 1 && name[|name| - 2] == suffix[|suffix| - 2]
  {
    if HasSuffix(name, suffix) {
      assert name[|name| - |suffix|..][|suffix| - 2] == suffix[|suffix| - 2];
    }
  }

  lemma SuffixTells(name: string)
    ensures !(HasSuffix(name, " (local)") && HasSuffix(name, " (subchart)"))
  {
    BeforeLast(name, " (local)");
    BeforeLast(name, " (subchart)");
  }

  /** Among plain findings the key decides the rest. */
  lemma SameKeySameFinding(f: ResourceFinding, g: ResourceFinding)
    requires Plain(f) && Plain(g) && KeyOf(f) == KeyOf(g)
    ensures f == g
  {
    SuffixTells(f.displayName);
    assert !f.scoped ==> f.locator == g.locator;
  }

  lemma RecordingPlain(resources: map<ResourceKey, ResourceFinding>, g: ResourceFinding, path: string,
                       f: ResourceFinding)
    requires Tidy(resources) && Plain(g) && Plain(f)
    ensures Tidy(Recorded(resources, g, path))
    ensures Holds(Recorded(resources, g, path), f) <==> Holds(resources, f) || f == g
  {
    if KeyOf(g) in resources {
      SameKeySameFinding(g, WithoutEvidence(resources[KeyOf(g)]));
    }
    if KeyOf(f) == KeyOf(g) {
      SameKeySameFinding(f, g);
    }
  }

  // ── from entries to trees ──────────────────────────────────────────────────

  lemma EntryRecords(c: Collected, name: string, value: string, source: Source, f: ResourceFinding)
    requires Tidy(c.resources) && Plain(f)
    ensures var after := Effected(c, EffectOf(name, value, source), source.path).resources;
            Tidy(after) && (Holds(after, f) <==> Holds(c.resources, f) || ValueNames(name, value, source.reader, f))
  {
    hide Tidy, Holds, Plain, LooksLikeConnectionKey;
    var e := EffectOf(name, value, source);
    if e.resource.Some? {
      var g := e.resource.value;
      PlainDsn(g.locator);
      RecordingPlain(c.resources, g, source.path, f);
    }
  }

  lemma PlainDsn(locator: Locator)
    requires locator.engine != ""
    ensures Plain(DsnFinding(locator))
  {
  }

  ghost predicate SomeNames(env: map<string, string>, done: set<string>, reader: Reader, f: ResourceFinding) {
    exists name :: name in done && name in env && ValueNames(name, env[name], reader, f)
  }

  lemma {:induction false} ScanRecords(c: Collected, env: map<string, string>, done: set<string>, source: Source,
                                       f: ResourceFinding)
    requires Tidy(c.resources) && Plain(f) && done <= env.Keys
    ensures var after := FoldSet(EntryStep(env, source), c, done).resources;
            Tidy(after) && (Holds(after, f) <==> Holds(c.resources, f) || SomeNames(env, done, source.reader, f))
    decreases |done|
  {
    hide Tidy, Holds, Plain, EntryStep, ValueNames, FoldSet;
    if done == {} {
      FoldNothing(EntryStep(env, source), c);
    } else {
      var name :| name in done;
      var rest := done - {name};
      ScanRecords(c, env, rest, source, f);
      OneMoreEntry(c, env, rest, name, source);
      assert rest + {name} == done;
      EntryRecords(FoldSet(EntryStep(env, source), c, rest), name, env[name], source, f);
    }
  }

  lemma EnvironmentRecords(c: Collected, env: map<string, string>, source: Source, f: ResourceFinding)
    requires Tidy(c.resources) && Plain(f)
    ensures var after := Scanned(c, env, source).resources;
            Tidy(after) && (Holds(after, f) <==> Holds(c.resources, f) || EntryNames(env, source.reader, f))
  {
    hide Tidy, Holds, Plain, EntryStep, ValueNames, FoldSet;
    ScanRecords(c, env, env.Keys, source, f);
  }

  lemma PlainLocal(engine: string, name: string, subchart: Subchart)
    ensures engine != "" ==> Plain(LocalEngine(engine, name + " (local)", COMPOSE_IMAGE))
    ensures subchart.engine != "" ==> Plain(SubchartFinding(subchart))
  {
    var local := name + " (local)";
    assert local[|local| - 8..] == " (local)";
    var shown := SubchartFinding(subchart).displayName;
    assert shown[|shown| - 11..] == " (subchart)";
  }

  lemma ServiceRecords(c: Collected, service: ComposeService, source: Source, f: ResourceFinding)
    requires Tidy(c.resources) && Plain(f)
    ensures var after := ServiceRead(c, service, source).resources;
            Tidy(after) && (Holds(after, f) <==> Holds(c.resources, f) || ServiceNames(service, source.reader, f))
  {
    hide Tidy, Holds, Plain, EntryNames, Scanned, Recorded;
    if service.engine == "" {
      EnvironmentRecords(c, service.environment, source, f);
    } else {
      var own := LocalEngine(service.engine, service.name + " (local)", COMPOSE_IMAGE);
      PlainLocal(service.engine, service.name, Subchart("", "", ""));
      RecordingPlain(c.resources, own, source.path, f);
      EnvironmentRecords(WithResource(c, own, source.path), service.environment, source, f);
    }
  }

  ghost predicate SomeService(services: seq<ComposeService>, reader: Reader, f: ResourceFinding) {
    exists s :: s in services && ServiceNames(s, reader, f)
  }

  lemma {:induction false} ServicesRecord(c: Collected, services: seq<ComposeService>, source: Source,
                                          f: ResourceFinding)
    requires Tidy(c.resources) && Plain(f)
    ensures var after := ServicesRead(c, services, source).resources;
            Tidy(after) && (Holds(after, f) <==> Holds(c.resources, f) || SomeService(services, source.reader, f))
  {
    hide Tidy, Holds, Plain, ServiceRead, ServiceNames;
    if services != [] {
      var front, last := services[..|services| - 1], services[|services| - 1];
      ServicesRecord(c, front, source, f);
      ServiceRecords(ServicesRead(c, front, source), last, source, f);
      SplitLast(services);
      assert forall s :: s in services <==> s in front || s == last;
    }
  }

  lemma {:induction false} ChartRecords(c: Collected, subcharts: seq<Subchart>, path: string, f: ResourceFinding)
    requires Tidy(c.resources) && Plain(f)
    ensures var after := ChartRead(c, subcharts, path).resources;
            && Tidy(after)
            && (Holds(after, f) <==> Holds(c.resources, f) || exists s :: s in subcharts && SubchartNames(s, f))
  {
    hide Tidy, Holds, Plain, SubchartFinding;
    if subcharts != [] {
      var front, last := subcharts[..|subcharts| - 1], subcharts[|subcharts| - 1];
      ChartRecords(c, front, path, f);
      SplitLast(subcharts);
      assert forall s :: s in subcharts <==> s in front || s == last;
      SubchartRecords(ChartRead(c, front, path), last, path, f);
    }
  }

  lemma SubchartRecords(c: Collected, subchart: Subchart, path: string, f: ResourceFinding)
    requires Tidy(c.resources) && Plain(f)
    ensures var after := WithResource(c, SubchartFinding(subchart), path).resources;
            Tidy(after) && (Holds(after, f) <==> Holds(c.resources, f) || SubchartNames(subchart, f))
  {
    hide Tidy, Holds, Plain;
    if subchart.engine != "" {
      PlainLocal("", "", subchart);
      RecordingPlain(c.resources, SubchartFinding(subchart), path, f);
    }
  }

  lemma {:induction false} TargetsRecordNothing(w: Configuration, service: string, targets: seq<string>,
                                                engines: map<string, string>, source: Source)
    ensures TargetsRead(w, service, targets, engines, source).found.resources == w.found.resources
  {
    if targets != [] {
      TargetsRecordNothing(w, service, targets[..|targets| - 1], engines, source);
    }
  }

  lemma {:induction false} LinksRecordNothing(w: Configuration, services: seq<ComposeService>, engines: map<string,
                                              string>, source: Source)
    ensures LinksRead(w, services, engines, source).found.resources == w.found.resources
  {
    if services != [] {
      var front, last := services[..|services| - 1], services[|services| - 1];
      LinksRecordNothing(w, front, engines, source);
      TargetsRecordNothing(LinksRead(w, front, engines, source), last.name, last.dependsOn, engines, source);
    }
  }

  lemma FileRecords(w: Configuration, file: ConfigFile, source: Source, f: ResourceFinding)
    requires Tidy(w.found.resources) && Plain(f)
    ensures var after := FileRead(w, file, source).found.resources;
            Tidy(after) && (Holds(after, f) <==> Holds(w.found.resources, f) || FileNames(file, source.reader, f))
  {
    hide Tidy, Holds, Plain, ServicesRead, LinksRead, ChartRead, Scanned, EntryNames, ServiceNames, SubchartFinding, AllDeclared, Engines;
    match file
    case Compose(services, isTest) =>
      var read := source.(fromTestFile := isTest);
      ServicesRecord(w.found, services, read, f);
      LinksRecordNothing(w.(found := ServicesRead(w.found, services, read)), services, Engines(services), read);
    case HelmChart(subcharts) => ChartRecords(w.found, subcharts, source.path, f);
    case K8sManifest(serviceNames, ingressHosts, environment) => EnvironmentRecords(w.found, environment, source, f);
    case Values(environment) => EnvironmentRecords(w.found, environment, source, f);
  }

  ghost predicate SomePathNames(input: Input<ConfigFile>, paths: seq<string>, reader: Reader, f: ResourceFinding) {
    exists p :: p in paths && PathNames(input, p, reader, f)
  }

  lemma {:induction false} PathsRecord(input: Input<ConfigFile>, paths: seq<string>, reader: Reader, f: ResourceFinding)
    requires Plain(f)
    ensures var after := PathsRead(input, paths, reader).found.resources;
            Tidy(after) && (Holds(after, f) <==> SomePathNames(input, paths, reader, f))
  {
    if paths != [] {
      var front, last := paths[..|paths| - 1], paths[|paths| - 1];
      PathsRecord(input, front, reader, f);
      PathRecords(PathsRead(input, front, reader), input, last, reader, f);
      SplitLast(paths);
      assert forall p :: p in paths <==> p in front || p == last;
    }
  }

  lemma PathRecords(w: Configuration, input: Input<ConfigFile>, path: string, reader: Reader, f: ResourceFinding)
    requires Tidy(w.found.resources) && Plain(f)
    ensures var after := PathRead(w, input, path, reader).found.resources;
            Tidy(after) && (Holds(after, f) <==> Holds(w.found.resources, f) || PathNames(input, path, reader, f))
  {
    hide Tidy, Holds, Plain, FileRead, FileNames;
    if FileAt(input, path).Some? {
      FileRecords(w, FileAt(input, path).value, Source(path, false, reader), f);
    }
  }

  // ── what a tree yields ─────────────────────────────────────────────────────

  lemma NamedIsPlain(file: ConfigFile, reader: Reader, f: ResourceFinding)
    requires FileNames(file, reader, f)
    ensures Plain(f)
  {
    hide Plain, LooksLikeConnectionKey;
    if f.ruleId == RESOURCE_DSN {
      PlainDsn(f.locator);
    }
    match file
    case Compose(services, isTest) =>
      var s :| s in services && ServiceNames(s, reader, f);
      PlainLocal(s.engine, s.name, Subchart("", "", ""));
    case HelmChart(subcharts) =>
      var s :| s in subcharts && SubchartNames(s, f);
      PlainLocal("", "", s);
    case _ =>
  }

  /** Whatever is read, every finding is stored under its own key, and its key says all of it but the evidence. */
  lemma ReadingIsTidy(input: Input<ConfigFile>, paths: seq<string>, reader: Reader)
    ensures Tidy(PathsRead(input, paths, reader).found.resources) && KeysMatch(PathsRead(input, paths, reader).found.resources)
  {
    var any := DsnFinding(Locator("postgresql", "db", None, ""));
    PlainDsn(any.locator);
    PathsRecord(input, paths, reader, any);
  }

  /**
   * Reading files finds exactly the resources they name: an engine that a compose service or a Helm subchart of
   * some file declares, which stays the repository's own, and a real host that some connection-like variable of
   * some file points at, which others may share. Nothing else, and no finding hides another.
   */
  lemma FindingsExactly(input: Input<ConfigFile>, paths: seq<string>, reader: Reader, f: ResourceFinding)
    ensures Holds(PathsRead(input, paths, reader).found.resources, f) <==> SomePathNames(input, paths, reader, f)
  {
    hide Plain, PathsRead, FileNames;
    if Plain(f) {
      PathsRecord(input, paths, reader, f);
    } else {
      ReadingIsTidy(input, paths, reader);
      if p :| p in paths && PathNames(input, p, reader, f) {
        NamedIsPlain(FileAt(input, p).value, reader, f);
      }
    }
  }

  /** The resources extractor: one read of the configuration, then the sorted listing of what it found. */
  method ExtractResources(input: Input<ConfigFile>, reader: Reader)
    returns (findings: seq<ResourceFinding>, inspection: Inspection)
    requires input.ceiling == MAX_CONFIG_FILES
    ensures ListsResources(findings, PathsRead(input, Candidates(input), reader).found.resources)
    ensures inspection == Inspect(input, Candidates(input))
  {
    var collector;
    collector, inspection := CollectConfig(input, reader);
    ReadingIsTidy(input, Candidates(input), reader);
    assert collector.resources == collector.Whole().found.resources;
    findings := collector.Resources();
  }

  /** The tree's file at `path` — listed, not vendored, not oversized, of a kind that is read — names the resource. */
  ghost predicate TreeNames(input: Input<ConfigFile>, path: string, reader: Reader, f: ResourceFinding) {
    Listed(input, path) && PathNames(input, path, reader, f)
  }

  /** A complete extraction lists exactly the resources of the tree, each with some evidence attached. */
  lemma CompleteFindingsExactly(input: Input<ConfigFile>, reader: Reader, findings: seq<ResourceFinding>,
                                f: ResourceFinding)
    requires ListsResources(findings, PathsRead(input, Candidates(input), reader).found.resources)
    requires Inspect(input, Candidates(input)).complete
    ensures (exists g :: g in findings && WithoutEvidence(g) == f) <==> exists p :: TreeNames(input, p, reader, f)
  {
    hide PathNames, PathsRead, Plain;
    var resources := PathsRead(input, Candidates(input), reader).found.resources;
    CompleteExactly(input);
    ReadingIsTidy(input, Candidates(input), reader);
    FindingsExactly(input, Candidates(input), reader, f);
    if Holds(resources, f) {
      assert KeyOf(resources[KeyOf(f)]) == KeyOf(f);
      assert resources[KeyOf(f)] in findings;
    }
    if g :| g in findings && WithoutEvidence(g) == f {
      assert KeyOf(g) == KeyOf(f);
    }
    if p :| p in Candidates(input) && PathNames(input, p, reader, f) {
      assert TreeNames(input, p, reader, f);
    }
  }

  /** The claim is for a resource the tree names and nobody suppressed. */
  ghost predicate TreeClaims(input: Input<ConfigFile>, reader: Reader, organization: string, repository: string,
                             hidden: set<string>,
                             place: ResourcePlace, fingerprint: string) {
    exists p, f :: TreeNames(input, p, reader, f) && place == PlaceOf(organization, repository, f)
                   && fingerprint == ResourceFingerprint(f) && fingerprint !in hidden
  }

  /**
   * From tree to table: once the last sync of a repository to land extracted what it saw, and the stored fact's
   * reconciliation finishes and sweeps without overlap, the repository's live claims are exactly those for the
   * unsuppressed resources of the tree.
   */
  lemma LiveClaimsAreTheResourcesOfTheTree(input: Input<ConfigFile>, reader: Reader,
                                           store: FactStore<seq<ResourceFinding>>,
                                           syncs: seq<Sync<seq<ResourceFinding>>>, n: nat, fact: ResourcesFact,
                                           t: Tables, organization: string, hidden: set<string>, startedAt: int,
                                           calls: nat, place: ResourcePlace, fingerprint: string)
    requires LeftBehind(fact, store, syncs, n)
    requires ListsResources(syncs[n].extract().0, PathsRead(input, Candidates(input), reader).found.resources)
    requires syncs[n].extract().1 == Inspect(input, Candidates(input))
    requires var outcome := ReconciledFact(t, organization, fact, hidden, startedAt, calls).1;
             outcome.Done? && !outcome.sweepSkipped
    requires ResourceProperties.NoOverlap(t, fact.repository, startedAt)
    ensures (place, fingerprint) in LiveClaims(ReconciledFact(t, organization, fact, hidden, startedAt, calls).0,
                                               fact.repository)
            <==> TreeClaims(input, reader, organization, fact.repository, hidden, place, fingerprint)
  {
    SweepingNeedsACompleteFact(t, organization, fact, hidden, startedAt, calls);
    StoredFactRetractsIff(fact, store, syncs, n);
    FactConverges(t, organization, fact, hidden, startedAt, calls);
    WantedFromTheTree(input, reader, organization, fact.repository, fact.data, hidden, place, fingerprint);
  }

  lemma SweepingNeedsACompleteFact(t: Tables, organization: string, fact: ResourcesFact, hidden: set<string>,
                                   startedAt: int, calls: nat)
    requires var outcome := ReconciledFact(t, organization, fact, hidden, startedAt, calls).1;
             outcome.Done? && !outcome.sweepSkipped
    ensures Reading(fact).complete
  {
    hide Reading, Written, Unsuppressed, FullyRecorded;
  }

  lemma WantedFromTheTree(input: Input<ConfigFile>, reader: Reader, organization: string, repository: string,
                          findings: seq<ResourceFinding>, hidden: set<string>, place: ResourcePlace, fingerprint: string)
    requires ListsResources(findings, PathsRead(input, Candidates(input), reader).found.resources)
    requires Inspect(input, Candidates(input)).complete
    ensures (place, fingerprint) in WantedClaims(organization, repository, Unsuppressed(findings, hidden))
            <==> TreeClaims(input, reader, organization, repository, hidden, place, fingerprint)
  {
    hide PathsRead, TreeNames, ResourceFingerprint, PlaceOf, ListsResources;
    var kept := Unsuppressed(findings, hidden);
    if g :| g in kept && PlaceOf(organization, repository, g) == place && ResourceFingerprint(g) == fingerprint {
      EvidenceIsNoIdentity(organization, repository, g);
      CompleteFindingsExactly(input, reader, findings, WithoutEvidence(g));
      var p :| TreeNames(input, p, reader, WithoutEvidence(g));
    }
    if p, f :| TreeNames(input, p, reader, f) && place == PlaceOf(organization, repository, f)
               && fingerprint == ResourceFingerprint(f) && fingerprint !in hidden {
      CompleteFindingsExactly(input, reader, findings, f);
      var g :| g in findings && WithoutEvidence(g) == f;
      EvidenceIsNoIdentity(organization, repository, g);
      assert g in kept;
    }
  }

  lemma EvidenceIsNoIdentity(organization: string, repository: string, g: ResourceFinding)
    ensures PlaceOf(organization, repository, g) == PlaceOf(organization, repository, WithoutEvidence(g))
    ensures ResourceFingerprint(g) == ResourceFingerprint(WithoutEvidence(g))
  {
  }
}
