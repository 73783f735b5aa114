/** Accumulating what a repository's configuration files say about resources and hosts. */
module Collector {
  import opened Wrappers
  import opened AnyOrder
  import opened Text
  import opened Hosts
  import opened Ordering

  datatype Locator = Locator(engine: string, host: string, port: Option<int>, namespace: string) {
    /** Whether two repositories stating this locator mean one instance: it needs a host, and no placeholder. */
    predicate IsShared() {
      host != "" && !IsPlaceholderHost(host)
    }

    function DisplayName(): string {
      if host == "" then engine
      else if namespace != "" then engine + " @ " + host + "/" + namespace
      else engine + " @ " + host
    }
  }

  datatype ResourceFinding = ResourceFinding(locator: Locator, scoped: bool, displayName: string, ruleId: string,
                                             confidence: real, evidence: seq<string>)

  /**
   * What makes two findings of a repository equal: engine and display name when scoped, the whole locator otherwise.
   */
  datatype ResourceKey =
    | ScopedKey(engine: string, displayName: string)
    | SharedKey(engine: string, host: string, port: Option<int>, namespace: string)

  function KeyOf(finding: ResourceFinding): ResourceKey {
    if finding.scoped then ScopedKey(finding.locator.engine, finding.displayName)
    else SharedKey(finding.locator.engine, finding.locator.host, finding.locator.port, finding.locator.namespace)
  }

  datatype Collected = Collected(resources: map<ResourceKey, ResourceFinding>, hints: set<string>,
                                 consumed: map<(string, string), HostFinding>)

  /** One line of a compose file's `depends_on`; `engine` is blank unless the file runs the target as an engine. */
  datatype ComposeDependency = ComposeDependency(from: string, to: string, engine: string, evidencePath: string,
                                                 fromTestFile: bool)

  /** Everything one repository's configuration says. */
  datatype Configuration = Configuration(found: Collected, services: set<string>, hosts: set<string>,
                                         dependencies: seq<ComposeDependency>)

  const NOTHING_READ := Configuration(Collected(map[], {}, map[]), {}, {}, [])

  function Declared(name: string): set<string> {
    if name == "" || IsPlaceholderHost(name) then {} else {ToLower(name)}
  }

  const MAX_EVIDENCE := 3
  const RESOURCE_DSN := "resource.dsn"
  const SHARED_LOCATOR := 0.85

  const CONNECTION_MARKERS := ["URL", "URI", "DSN", "CONNECTION", "CONN_STR", "ADDR", "HOST", "ENDPOINT", "BROKER", "SERVERS"]

  predicate LooksLikeConnectionKey(name: string) {
    exists i :: 0 <= i < |CONNECTION_MARKERS| && Contains(ToUpper(name), CONNECTION_MARKERS[i])
  }

  /** Variable names that imply an engine without identifying an instance of it. */
  const ENGINE_HINTS := map[
    "DATABASE_URL" := "postgresql", "DATABASE_URI" := "postgresql", "POSTGRES_URL" := "postgresql",
    "POSTGRESQL_URL" := "postgresql", "PG_URL" := "postgresql", "PGHOST" := "postgresql",
    "MYSQL_URL" := "mysql", "MYSQL_HOST" := "mysql", "REDIS_URL" := "redis", "REDIS_HOST" := "redis",
    "MONGO_URL" := "mongodb", "MONGODB_URI" := "mongodb", "KAFKA_BROKERS" := "kafka", "KAFKA_BOOTSTRAP_SERVERS" := "kafka",
    "AMQP_URL" := "rabbitmq", "RABBITMQ_URL" := "rabbitmq", "ELASTICSEARCH_URL" := "elasticsearch",
    "S3_BUCKET" := "s3", "AWS_S3_BUCKET" := "s3"
  ]

  function NonBlank(engine: string): set<string> {
    if engine == "" then {} else {engine}
  }

  function HintsOf(name: string): set<string> {
    if ToUpper(name) in ENGINE_HINTS then NonBlank(ENGINE_HINTS[ToUpper(name)]) else {}
  }

  // ── adding one finding ─────────────────────────────────────────────────────

  function WithEvidence(evidence: seq<string>, path: string): seq<string> {
    if path == "" || |evidence| >= MAX_EVIDENCE || path in evidence then evidence else evidence + [path]
  }

  /** An equal finding takes the greater confidence and keeps both paths. */
  function Agreed(existing: ResourceFinding, finding: ResourceFinding, path: string): ResourceFinding {
    var stronger := if finding.confidence > existing.confidence
                    then existing.(confidence := finding.confidence, ruleId := finding.ruleId) else existing;
    var located := if !finding.scoped && stronger.scoped
                   then stronger.(scoped := false, locator := finding.locator, displayName := finding.displayName) else stronger;
    located.(evidence := WithEvidence(located.evidence, path))
  }

  function Recorded(resources: map<ResourceKey, ResourceFinding>, finding: ResourceFinding,
                    path: string): map<ResourceKey, ResourceFinding>
  {
    if finding.locator.engine == "" then resources
    else
      var key := KeyOf(finding);
      resources[key := if key in resources then Agreed(resources[key], finding, path) else finding.(evidence := WithEvidence([], path))]
  }

  /** Production evidence for a known host clears its test mark and replaces its path. */
  function Seen(existing: HostFinding, finding: HostFinding): HostFinding {
    var stronger := if finding.confidence > existing.confidence
                    then existing.(confidence := finding.confidence, ruleId := finding.ruleId) else existing;
    if finding.fromTestFile then stronger else stronger.(fromTestFile := false, evidencePath := finding.evidencePath)
  }

  /** A blank or placeholder host is discarded. */
  function Consuming(consumed: map<(string, string), HostFinding>, raw: HostFinding): map<(string, string), HostFinding> {
    var finding := raw.(host := Normal(raw.host));
    if finding.host == "" || IsPlaceholderHost(finding.host) then consumed
    else
      var key := (finding.host, finding.envVar);
      consumed[key := if key in consumed then Seen(consumed[key], finding) else finding]
  }

  /** What parsing makes of one value: a connection string, else a bare host, else nothing. */
  datatype Reader = Reader(dsn: string -> Option<Locator>, host: string -> Option<string>)

  datatype Source = Source(path: string, fromTestFile: bool, reader: Reader)

  function DsnFinding(locator: Locator): ResourceFinding {
    ResourceFinding(locator, false, locator.DisplayName(), RESOURCE_DSN, SHARED_LOCATOR, [])
  }

  function HostEntry(host: string, name: string, source: Source): HostFinding {
    HostFinding(host, name, source.path, K8S_SERVICE_HOST, DECLARED_HOST, source.fromTestFile)
  }

  // ── what one environment entry asks for ────────────────────────────────────

  /** Hints to add, and at most one resource or one consumed host. */
  datatype Effect = Effect(hints: set<string>, resource: Option<ResourceFinding>, host: Option<HostFinding>)

  function ValueEffect(name: string, value: string, source: Source): Effect {
    match source.reader.dsn(value)
    case Some(locator) =>
      if !locator.IsShared() then Effect(NonBlank(locator.engine), None, None)
      else if locator.engine == "" then Effect({}, None, None)
      else Effect({}, Some(DsnFinding(locator)), None)
    case None =>
      match source.reader.host(value)
      case Some(host) => Effect({}, None, Some(HostEntry(host, name, source)))
      case None => Effect({}, None, None)
  }

  function EffectOf(name: string, value: string, source: Source): Effect {
    var effect := if value == "" || !LooksLikeConnectionKey(name) then Effect({}, None, None) else ValueEffect(name, value, source);
    effect.(hints := HintsOf(name) + effect.hints)
  }

  function Effected(c: Collected, e: Effect, path: string): Collected {
    Collected(match e.resource case Some(f) => Recorded(c.resources, f, path) case None => c.resources,
              c.hints + e.hints,
              match e.host case Some(h) => Consuming(c.consumed, h) case None => c.consumed)
  }

  lemma EffectShape(name: string, value: string, source: Source)
    ensures var e := EffectOf(name, value, source);
            && (e.resource.Some? ==> e.resource.value == DsnFinding(e.resource.value.locator))
            && (e.host.Some? ==> e.host.value.envVar == name)
  {
  }

  lemma RecordingCommutes(resources: map<ResourceKey, ResourceFinding>, f: ResourceFinding, g: ResourceFinding,
                          path: string)
    requires KeyOf(f) == KeyOf(g) ==> f == g
    ensures Recorded(Recorded(resources, f, path), g, path) == Recorded(Recorded(resources, g, path), f, path)
  {
  }

  lemma ConsumingCommutes(consumed: map<(string, string), HostFinding>, f: HostFinding, g: HostFinding)
    requires f.envVar != g.envVar
    ensures Consuming(Consuming(consumed, f), g) == Consuming(Consuming(consumed, g), f)
  {
  }

  lemma EffectsCommute(c: Collected, a: Effect, b: Effect, path: string)
    requires a.resource.Some? && b.resource.Some? && KeyOf(a.resource.value) == KeyOf(b.resource.value) ==> a.resource == b.resource
    requires a.host.Some? && b.host.Some? ==> a.host.value.envVar != b.host.value.envVar
    ensures Effected(Effected(c, a, path), b, path) == Effected(Effected(c, b, path), a, path)
  {
    assert c.hints + a.hints + b.hints == c.hints + b.hints + a.hints;
    if a.resource.Some? && b.resource.Some? {
      RecordingCommutes(c.resources, a.resource.value, b.resource.value, path);
    }
    if a.host.Some? && b.host.Some? {
      ConsumingCommutes(c.consumed, a.host.value, b.host.value);
    }
  }

  // ── scanning an environment in any order ───────────────────────────────────

  /** Scanning one entry of an environment. */
  function EntryStep(env: map<string, string>, source: Source): (Collected, string) -> Collected {
    (c: Collected, name: string) => if name in env then Effected(c, EffectOf(name, env[name], source), source.path) else c
  }

  /** Any two entries of one file commute: they meet only in an equal finding or in the set of hints. */
  lemma EntriesCommute(env: map<string, string>, source: Source)
    ensures Commutes(EntryStep(env, source), env.Keys)
  {
    var step := EntryStep(env, source);
    forall c, x, y | x in env.Keys && y in env.Keys && x != y
      ensures step(step(c, x), y) == step(step(c, y), x)
    {
      EffectShape(x, env[x], source);
      EffectShape(y, env[y], source);
      EffectsCommute(c, EffectOf(x, env[x], source), EffectOf(y, env[y], source), source.path);
    }
  }

  ghost function Scanned(c: Collected, env: map<string, string>, source: Source): Collected {
    FoldSet(EntryStep(env, source), c, env.Keys)
  }

  /** What scanning one more entry makes of the entries scanned so far. */
  lemma OneMoreEntry(c: Collected, env: map<string, string>, done: set<string>, name: string, source: Source)
    requires done <= env.Keys && name in env && name !in done
    ensures FoldSet(EntryStep(env, source), c, done + {name})
            == Effected(FoldSet(EntryStep(env, source), c, done), EffectOf(name, env[name], source), source.path)
  {
    EntriesCommute(env, source);
    assert done + {name} - {name} == done;
    AnyKeyMayBeLast(EntryStep(env, source), c, done + {name}, name);
  }

  /** Every order of a file's entries yields the same collector. */
  lemma EveryOrderScansTheSame(c: Collected, env: map<string, string>, order: seq<string>, source: Source)
    requires forall n :: n in env <==> n in order
    requires forall i, j :: 0 <= i < j < |order| ==> order[i] != order[j]
    ensures FoldSeq(EntryStep(env, source), c, order) == Scanned(c, env, source)
  {
    EntriesCommute(env, source);
    EveryOrderIsTheSame(EntryStep(env, source), c, order, env.Keys);
  }

  // ── the collector ──────────────────────────────────────────────────────────

  class ResourceCollector {
    var resources: map<ResourceKey, ResourceFinding>
    var hints: set<string>
    var consumed: map<(string, string), HostFinding>
    var declaredServices: set<string>
    var declaredHosts: set<string>
    var dependencies: seq<ComposeDependency>

    ghost function Model(): Collected
      reads this
    {
      Collected(resources, hints, consumed)
    }

    ghost function Whole(): Configuration
      reads this
    {
      Configuration(Model(), declaredServices, declaredHosts, dependencies)
    }

    constructor ()
      ensures Whole() == NOTHING_READ
    {
      resources, hints, consumed, declaredServices, declaredHosts, dependencies := map[], {}, map[], {}, {}, [];
    }

    method AddDeclaredService(name: string)
      modifies `declaredServices
      ensures declaredServices == old(declaredServices) + Declared(name)
    {
      if name != "" && !IsPlaceholderHost(name) {
        declaredServices := declaredServices + {ToLower(name)};
      }
    }

    method AddDeclaredHost(host: string)
      modifies `declaredHosts
      ensures declaredHosts == old(declaredHosts) + Declared(host)
    {
      if host != "" && !IsPlaceholderHost(host) {
        declaredHosts := declaredHosts + {ToLower(host)};
      }
    }

    method AddComposeDependency(dependency: ComposeDependency)
      modifies `dependencies
      ensures dependencies == old(dependencies) + [dependency]
    {
      dependencies := dependencies + [dependency];
    }

    method AddResource(finding: ResourceFinding, path: string)
      modifies `resources
      ensures Model() == old(Model()).(resources := Recorded(old(resources), finding, path))
    {
      if finding.locator.engine == "" {
        return;
      }
      var key := KeyOf(finding);
      if key !in resources {
        resources := resources[key := finding.(evidence := WithEvidence([], path))];
        return;
      }
      var existing := resources[key];
      if finding.confidence > existing.confidence {
        existing := existing.(confidence := finding.confidence, ruleId := finding.ruleId);
      }
      if !finding.scoped && existing.scoped {
        existing := existing.(scoped := false, locator := finding.locator, displayName := finding.displayName);
      }
      existing := existing.(evidence := WithEvidence(existing.evidence, path));
      resources := resources[key := existing];
    }

    method AddEngineHint(engine: string)
      modifies `hints
      ensures hints == old(hints) + NonBlank(engine)
    {
      if engine != "" {
        hints := hints + {engine};
      }
    }

    method AddConsumedHost(raw: HostFinding)
      modifies `consumed
      ensures Model() == old(Model()).(consumed := Consuming(old(consumed), raw))
    {
      var finding := raw.(host := Normal(raw.host));
      if finding.host == "" || IsPlaceholderHost(finding.host) {
        return;
      }
      var key := (finding.host, finding.envVar);
      if key !in consumed {
        consumed := consumed[key := finding];
        return;
      }
      var existing := consumed[key];
      if finding.confidence > existing.confidence {
        existing := existing.(confidence := finding.confidence, ruleId := finding.ruleId);
      }
      if !finding.fromTestFile {
        existing := existing.(fromTestFile := false, evidencePath := finding.evidencePath);
      }
      consumed := consumed[key := existing];
    }

    method ScanEntry(name: string, value: string, source: Source)
      modifies `resources, `hints, `consumed
      ensures Model() == Effected(old(Model()), EffectOf(name, value, source), source.path)
    {
      if ToUpper(name) in ENGINE_HINTS {
        AddEngineHint(ENGINE_HINTS[ToUpper(name)]);
      }
      if value == "" || !LooksLikeConnectionKey(name) {
        return;
      }
      var dsn := source.reader.dsn(value);
      if dsn.Some? {
        if dsn.value.IsShared() {
          AddResource(DsnFinding(dsn.value), source.path);
        } else {
          AddEngineHint(dsn.value.engine);
        }
        return;
      }
      var host := source.reader.host(value);
      if host.Some? {
        AddConsumedHost(HostEntry(host.value, name, source));
      }
    }

    method ScanNext(env: map<string, string>, name: string, source: Source, ghost before: Collected,
                    ghost done: set<string>)
      requires done <= env.Keys && name in env && name !in done
      requires Model() == FoldSet(EntryStep(env, source), before, done)
      modifies `resources, `hints, `consumed
      ensures Model() == FoldSet(EntryStep(env, source), before, done + {name})
    {
      OneMoreEntry(before, env, done, name, source);
      ScanEntry(name, env[name], source);
    }

    /** Reads one file's environment, in whatever order the map is walked. */
    method ScanEnvironment(env: map<string, string>, source: Source)
      modifies `resources, `hints, `consumed
      ensures Model() == Scanned(old(Model()), env, source)
    {
      hide EntryStep, FoldSet;
      FoldNothing(EntryStep(env, source), Model());
      var remaining := env.Keys;
      ghost var before, done := Model(), {};
      while remaining != {}
        invariant done + remaining == env.Keys && done !! remaining
        invariant Model() == FoldSet(EntryStep(env, source), before, done)
        decreases |remaining|
      {
        var name :| name in remaining;
        ScanNext(env, name, source, before, done);
        remaining, done := remaining - {name}, done + {name};
      }
      assert done == env.Keys;
    }

    /** The findings by engine and display name; findings equal in both come in whatever order the map is walked. */
    method Resources() returns (list: seq<ResourceFinding>)
      requires KeysMatch(resources)
      ensures ListsResources(list, resources)
    {
      var remaining := resources.Keys;
      list := [];
      while remaining != {}
        invariant remaining <= resources.Keys
        invariant forall f :: f in list <==> KeyOf(f) in resources.Keys - remaining && f == resources[KeyOf(f)]
        invariant Distinct(list)
        decreases |remaining|
      {
        var key :| key in remaining;
        assert resources[key] !in list;
        list := list + [resources[key]];
        remaining := remaining - {key};
      }
      FindingOrderIsWeak();
      SortSorts(list, FindingBefore);
      list := Sort(list, FindingBefore);
    }
  }

  function LabelOf(f: ResourceFinding): (string, string) {
    (f.locator.engine, f.displayName)
  }

  predicate FindingBefore(f: ResourceFinding, g: ResourceFinding) {
    PairBefore(LabelOf(f), LabelOf(g))
  }

  lemma FindingOrderIsWeak()
    ensures WeakOrder(FindingBefore)
  {
    PairBeforeIsStrictOrder();
    forall f, g, h | !FindingBefore(g, f) && !FindingBefore(h, g)
      ensures !FindingBefore(h, f)
    {
      var a, b, c := LabelOf(f), LabelOf(g), LabelOf(h);
      assert a == b || PairBefore(a, b);
      assert b == c || PairBefore(b, c);
    }
  }

  ghost predicate KeysMatch(resources: map<ResourceKey, ResourceFinding>) {
    forall k :: k in resources ==> KeyOf(resources[k]) == k
  }

  /** `list` is every stored finding once, sorted. */
  ghost predicate ListsResources(list: seq<ResourceFinding>, resources: map<ResourceKey, ResourceFinding>) {
    Sorted(list, FindingBefore) && Distinct(list) && forall f :: f in list <==> KeyOf(f) in resources && f == resources[KeyOf(f)]
  }
}
