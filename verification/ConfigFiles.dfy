/** Pass one over configuration: what compose files, Helm charts, Kubernetes manifests and environment files say. */
module ConfigFiles {
  import opened Wrappers
  import opened Hosts
  import opened Facts
  import opened Collector
  import opened Extraction

  datatype ComposeService = ComposeService(name: string, engine: string, environment: map<string, string>,
                                           dependsOn: seq<string>)

  datatype Subchart = Subchart(name: string, alias: string, engine: string)

  datatype ConfigFile =
    | Compose(services: seq<ComposeService>, isTest: bool)
    | HelmChart(subcharts: seq<Subchart>)
    | K8sManifest(serviceNames: seq<string>, ingressHosts: seq<string>, environment: map<string, string>)
    | Values(environment: map<string, string>)

  const MAX_CONFIG_FILES := 40
  const COMPOSE_IMAGE := "resource.compose_image"
  const HELM_SUBCHART := "resource.helm_subchart"
  const LOCAL_EVIDENCE := 0.70

  // ── one compose file ───────────────────────────────────────────────────────

  /** An engine that a repository runs for itself; never shared with another repository. */
  function LocalEngine(engine: string, displayName: string, ruleId: string): ResourceFinding {
    ResourceFinding(Locator(engine, "", None, ""), true, displayName, ruleId, LOCAL_EVIDENCE, [])
  }

  function WithResource(c: Collected, finding: ResourceFinding, path: string): Collected {
    c.(resources := Recorded(c.resources, finding, path))
  }

  ghost function ServiceRead(c: Collected, service: ComposeService, source: Source): Collected {
    var imaged := if service.engine == "" then c
                  else WithResource(c, LocalEngine(service.engine, service.name + " (local)", COMPOSE_IMAGE),
                                    source.path);
    Scanned(imaged, service.environment, source)
  }

  ghost function ServicesRead(c: Collected, services: seq<ComposeService>, source: Source): Collected {
    if services == [] then c
    else ServiceRead(ServicesRead(c, services[..|services| - 1], source), services[|services| - 1], source)
  }

  /** The services of a file that are engines. */
  function Engines(services: seq<ComposeService>): map<string, string> {
    if services == [] then map[]
    else
      var before, last := Engines(services[..|services| - 1]), services[|services| - 1];
      if last.engine == "" then before else before[last.name := last.engine]
  }

  function EngineOf(engines: map<string, string>, name: string): string {
    if name in engines then engines[name] else ""
  }

  /** A service depending on another: a line of the topology, and a consumed name unless the target is an engine. */
  function LinkRead(w: Configuration, service: string, target: string, engines: map<string, string>,
                    source: Source): Configuration
  {
    if target == service then w
    else
      var engine := EngineOf(engines, target);
      var noted := w.(dependencies := w.dependencies + [ComposeDependency(service, target, engine, source.path,
                                                                          source.fromTestFile)]);
      if engine == "" then noted.(found := noted.found.(consumed := Consuming(noted.found.consumed, AliasEntry(target, source)))) else noted
  }

  function AliasEntry(name: string, source: Source): HostFinding {
    HostFinding(name, "", source.path, COMPOSE_DEPENDS_ON, COMPOSE_TOPOLOGY, source.fromTestFile)
  }

  function TargetsRead(w: Configuration, service: string, targets: seq<string>, engines: map<string, string>,
                       source: Source): Configuration
  {
    if targets == [] then w
    else LinkRead(TargetsRead(w, service, targets[..|targets| - 1], engines, source), service, targets[|targets| - 1],
                  engines, source)
  }

  function LinksRead(w: Configuration, services: seq<ComposeService>, engines: map<string, string>,
                     source: Source): Configuration
  {
    if services == [] then w
    else
      var last := services[|services| - 1];
      TargetsRead(LinksRead(w, services[..|services| - 1], engines, source), last.name, last.dependsOn, engines, source)
  }

  ghost function ComposeRead(w: Configuration, services: seq<ComposeService>, source: Source): Configuration {
    LinksRead(w.(found := ServicesRead(w.found, services, source)), services, Engines(services), source)
  }

  method ReadServices(collector: ResourceCollector, services: seq<ComposeService>, source: Source)
    returns (engines: map<string, string>)
    modifies collector`resources, collector`hints, collector`consumed
    ensures collector.Model() == ServicesRead(old(collector.Model()), services, source) && engines == Engines(services)
  {
    engines := map[];
    for i := 0 to |services|
      invariant collector.Model() == ServicesRead(old(collector.Model()), services[..i], source)
      invariant engines == Engines(services[..i])
    {
      assert services[..i + 1][..i] == services[..i];
      if services[i].engine != "" {
        engines := engines[services[i].name := services[i].engine];
        collector.AddResource(LocalEngine(services[i].engine, services[i].name + " (local)", COMPOSE_IMAGE),
                              source.path);
      }
      collector.ScanEnvironment(services[i].environment, source);
    }
    WholePrefix(services);
  }

  method ReadTargets(collector: ResourceCollector, service: string, targets: seq<string>, engines: map<string,
                     string>, source: Source)
    modifies collector`consumed, collector`dependencies
    ensures collector.Whole() == TargetsRead(old(collector.Whole()), service, targets, engines, source)
  {
    for i := 0 to |targets|
      invariant collector.Whole() == TargetsRead(old(collector.Whole()), service, targets[..i], engines, source)
    {
      assert targets[..i + 1][..i] == targets[..i];
      if targets[i] != service {
        var engine := EngineOf(engines, targets[i]);
        collector.AddComposeDependency(ComposeDependency(service, targets[i], engine, source.path,
                                                         source.fromTestFile));
        if engine == "" {
          collector.AddConsumedHost(AliasEntry(targets[i], source));
        }
      }
    }
    WholePrefix(targets);
  }

  method ReadCompose(collector: ResourceCollector, services: seq<ComposeService>, source: Source)
    modifies collector
    ensures collector.Whole() == ComposeRead(old(collector.Whole()), services, source)
  {
    var engines := ReadServices(collector, services, source);
    ghost var scanned := collector.Whole();
    for i := 0 to |services|
      invariant collector.Whole() == LinksRead(scanned, services[..i], engines, source)
    {
      assert services[..i + 1][..i] == services[..i];
      ReadTargets(collector, services[i].name, services[i].dependsOn, engines, source);
    }
    WholePrefix(services);
  }

  // ── the other files ────────────────────────────────────────────────────────

  function SubchartFinding(subchart: Subchart): ResourceFinding {
    LocalEngine(subchart.engine, (if subchart.alias == "" then subchart.name else subchart.alias) + " (subchart)",
                HELM_SUBCHART)
  }

  function ChartRead(c: Collected, subcharts: seq<Subchart>, path: string): Collected {
    if subcharts == [] then c
    else WithResource(ChartRead(c, subcharts[..|subcharts| - 1], path), SubchartFinding(subcharts[|subcharts| - 1]),
                      path)
  }

  function AllDeclared(names: seq<string>): set<string> {
    if names == [] then {} else AllDeclared(names[..|names| - 1]) + Declared(names[|names| - 1])
  }

  method ReadHelmChart(collector: ResourceCollector, subcharts: seq<Subchart>, path: string)
    modifies collector`resources
    ensures collector.Model() == ChartRead(old(collector.Model()), subcharts, path)
  {
    for i := 0 to |subcharts|
      invariant collector.Model() == ChartRead(old(collector.Model()), subcharts[..i], path)
    {
      assert subcharts[..i + 1][..i] == subcharts[..i];
      collector.AddResource(SubchartFinding(subcharts[i]), path);
    }
    WholePrefix(subcharts);
  }

  method ReadK8sManifest(collector: ResourceCollector, serviceNames: seq<string>, ingressHosts: seq<string>,
                         environment: map<string, string>, source: Source)
    modifies collector
    ensures collector.Whole() == FileRead(old(collector.Whole()),
                                          K8sManifest(serviceNames, ingressHosts, environment), source)
  {
    for i := 0 to |serviceNames|
      invariant collector.Whole() == old(collector.Whole()).(services := old(collector.declaredServices) + AllDeclared(serviceNames[..i]))
    {
      assert serviceNames[..i + 1][..i] == serviceNames[..i];
      collector.AddDeclaredService(serviceNames[i]);
    }
    WholePrefix(serviceNames);
    ghost var named := collector.Whole();
    for i := 0 to |ingressHosts|
      invariant collector.Whole() == named.(hosts := named.hosts + AllDeclared(ingressHosts[..i]))
    {
      assert ingressHosts[..i + 1][..i] == ingressHosts[..i];
      collector.AddDeclaredHost(ingressHosts[i]);
    }
    WholePrefix(ingressHosts);
    collector.ScanEnvironment(environment, source);
  }

  ghost function FileRead(w: Configuration, file: ConfigFile, source: Source): Configuration {
    match file
    case Compose(services, isTest) => ComposeRead(w, services, source.(fromTestFile := isTest))
    case HelmChart(subcharts) => w.(found := ChartRead(w.found, subcharts, source.path))
    case K8sManifest(serviceNames, ingressHosts, environment) =>
      w.(services := w.services + AllDeclared(serviceNames), hosts := w.hosts + AllDeclared(ingressHosts),
         found := Scanned(w.found, environment, source))
    case Values(environment) => w.(found := Scanned(w.found, environment, source))
  }

  method ReadConfigFile(collector: ResourceCollector, file: ConfigFile, source: Source)
    modifies collector
    ensures collector.Whole() == FileRead(old(collector.Whole()), file, source)
  {
    match file
    case Compose(services, isTest) => ReadCompose(collector, services, source.(fromTestFile := isTest));
    case HelmChart(subcharts) => ReadHelmChart(collector, subcharts, source.path);
    case K8sManifest(serviceNames, ingressHosts, environment) => ReadK8sManifest(collector, serviceNames, ingressHosts, environment, source);
    case Values(environment) => collector.ScanEnvironment(environment, source);
  }

  // ── a whole repository ─────────────────────────────────────────────────────

  /** What a path adds; of a file that is not understood, only a manifest's readable documents are kept. */
  ghost function PathRead(w: Configuration, input: Input<ConfigFile>, path: string, reader: Reader): Configuration {
    match input.fetch(path)
    case Content(text) =>
      var parsed := input.parse(path, text);
      if parsed.understood || parsed.value.K8sManifest? then FileRead(w, parsed.value, Source(path, false, reader)) else w
    case _ => w
  }

  ghost function PathsRead(input: Input<ConfigFile>, paths: seq<string>, reader: Reader): Configuration {
    if paths == [] then NOTHING_READ
    else PathRead(PathsRead(input, paths[..|paths| - 1], reader), input, paths[|paths| - 1], reader)
  }

  lemma ReadOneMore(input: Input<ConfigFile>, paths: seq<string>, n: nat, reader: Reader)
    requires n < |paths|
    ensures PathsRead(input, paths[..n + 1], reader) == PathRead(PathsRead(input, paths[..n], reader), input,
                                                                 paths[n], reader)
  {
    assert paths[..n + 1][..n] == paths[..n];
  }

  /** Reads every candidate file into one collector; the result is the same however each environment is walked. */
  method CollectConfig(input: Input<ConfigFile>, reader: Reader)
    returns (collector: ResourceCollector, inspection: Inspection)
    requires input.ceiling == MAX_CONFIG_FILES
    ensures fresh(collector)
    ensures collector.Whole() == PathsRead(input, Candidates(input), reader) && inspection == Inspect(input, Candidates(input))
  {
    collector := new ResourceCollector();
    var candidates;
    candidates, inspection := OpenTree(input);
    for i := 0 to |candidates|
      invariant fresh(collector)
      invariant collector.Whole() == PathsRead(input, candidates[..i], reader) && inspection == Inspect(input, candidates[..i])
    {
      InspectOneMore(input, candidates, i);
      ReadOneMore(input, candidates, i, reader);
      var fetched := input.fetch(candidates[i]);
      match fetched
      case Absent =>
      case Unreadable => inspection := inspection.MarkIncomplete(READ_FAILED);
      case Content(text) =>
        var parsed := input.parse(candidates[i], text);
        if parsed.understood || parsed.value.K8sManifest? {
          ReadConfigFile(collector, parsed.value, Source(candidates[i], false, reader));
        }
        if !parsed.understood {
          inspection := inspection.MarkIncomplete(PARSE_FAILED);
        }
    }
    WholePrefix(candidates);
  }
}
