/** What compose files say beside resources and hosts: which services are engines, who depends on whom, and hints. */
module ConfigTopology {
  import opened Wrappers
  import opened AnyOrder
  import opened Text
  import opened Hosts
  import opened Collector
  import opened ConfigFiles
  import opened ConfigProperties
  import opened Extraction

  // ── engines ────────────────────────────────────────────────────────────────

  /** Some service of the file has the name and runs an engine. */
  ghost predicate RunsEngine(services: seq<ComposeService>, name: string) {
    exists s :: s in services && s.name == name && s.engine != ""
  }

  /** The engine run under the name: the last one a service of that name runs, or none. */
  ghost predicate RunsAs(services: seq<ComposeService>, name: string, engine: string) {
    if engine == "" then !RunsEngine(services, name)
    else exists i :: 0 <= i < |services| && services[i].name == name && services[i].engine == engine && LastEngine(services, name, i)
  }

  ghost predicate LastEngine(services: seq<ComposeService>, name: string, i: nat) {
    forall j :: i < j < |services| && services[j].name == name ==> services[j].engine == ""
  }

  lemma EngineAfter(front: seq<ComposeService>, last: ComposeService, name: string)
    ensures EngineOf(Engines(front + [last]), name)
            == if last.name == name && last.engine != "" then last.engine else EngineOf(Engines(front), name)
  {
    assert (front + [last])[..|front|] == front;
  }

  lemma RunsAfter(front: seq<ComposeService>, last: ComposeService, name: string, engine: string)
    requires RunsAs(front, name, engine)
    ensures RunsAs(front + [last], name, if last.name == name && last.engine != "" then last.engine else engine)
  {
    var services := front + [last];
    if last.name == name && last.engine != "" {
      assert services[|front|] == last && LastEngine(services, name, |front|);
    } else if engine != "" {
      var i :| 0 <= i < |front| && front[i].name == name && front[i].engine == engine && LastEngine(front, name, i);
      assert services[i] == front[i] && LastEngine(services, name, i);
    } else {
      assert forall s :: s in services <==> s in front || s == last;
    }
  }

  /** What the first loop over a file remembers of a name is the engine run under it. */
  lemma {:induction false} EngineIsTheLast(services: seq<ComposeService>, name: string)
    ensures RunsAs(services, name, EngineOf(Engines(services), name))
  {
    if services != [] {
      var front, last := services[..|services| - 1], services[|services| - 1];
      hide Engines, EngineOf, RunsAs;
      EngineIsTheLast(front, name);
      SplitLast(services);
      EngineAfter(front, last, name);
      RunsAfter(front, last, name, EngineOf(Engines(front), name));
    }
  }

  lemma EngineOrNone(services: seq<ComposeService>, name: string)
    ensures EngineOf(Engines(services), name) == "" <==> !RunsEngine(services, name)
  {
    EngineIsTheLast(services, name);
    var engine := EngineOf(Engines(services), name);
    if engine != "" {
      var i :| 0 <= i < |services| && services[i].name == name && services[i].engine == engine && LastEngine(services, name, i);
      assert services[i] in services;
    }
  }

  /** At most one engine is run under a name. */
  lemma EngineIsUnique(services: seq<ComposeService>, name: string, a: string, b: string)
    requires RunsAs(services, name, a) && RunsAs(services, name, b)
    ensures a == b
  {
    if a != "" {
      var i :| 0 <= i < |services| && services[i].name == name && services[i].engine == a && LastEngine(services, name, i);
      assert services[i] in services;
      assert b != "";
      var j :| 0 <= j < |services| && services[j].name == name && services[j].engine == b && LastEngine(services, name, j);
      assert i == j;
    }
  }

  // ── dependencies ───────────────────────────────────────────────────────────

  /** The line for a service depending on a target, whatever the target turns out to run. */
  predicate IsLink(d: ComposeDependency, service: string, target: string, engine: string, source: Source) {
    target != service && d == ComposeDependency(service, target, engine, source.path, source.fromTestFile)
  }

  ghost predicate SomeTarget(d: ComposeDependency, service: string, targets: seq<string>, engines: map<string,
                             string>, source: Source)
  {
    exists t :: t in targets && IsLink(d, service, t, EngineOf(engines, t), source)
  }

  lemma {:induction false} TargetsAddLines(w: Configuration, service: string, targets: seq<string>,
                                           engines: map<string, string>, source: Source, d: ComposeDependency)
    ensures d in TargetsRead(w, service, targets, engines, source).dependencies
            <==> d in w.dependencies || SomeTarget(d, service, targets, engines, source)
  {
    if targets != [] {
      var front, last := targets[..|targets| - 1], targets[|targets| - 1];
      TargetsAddLines(w, service, front, engines, source, d);
      SplitLast(targets);
      assert forall t :: t in targets <==> t in front || t == last;
      LinkAddsALine(TargetsRead(w, service, front, engines, source), service, last, engines, source, d);
    }
  }

  lemma LinkAddsALine(w: Configuration, service: string, target: string, engines: map<string, string>, source: Source,
                      d: ComposeDependency)
    ensures d in LinkRead(w, service, target, engines, source).dependencies
            <==> d in w.dependencies || IsLink(d, service, target, EngineOf(engines, target), source)
  {
  }

  ghost predicate SomeLine(d: ComposeDependency, services: seq<ComposeService>, engines: map<string, string>,
                           source: Source)
  {
    exists s :: s in services && SomeTarget(d, s.name, s.dependsOn, engines, source)
  }

  lemma {:induction false} LinksAddLines(w: Configuration, services: seq<ComposeService>, engines: map<string, string>,
                                         source: Source, d: ComposeDependency)
    ensures d in LinksRead(w, services, engines, source).dependencies
            <==> d in w.dependencies || SomeLine(d, services, engines, source)
  {
    hide SomeTarget, TargetsRead;
    if services != [] {
      var front, last := services[..|services| - 1], services[|services| - 1];
      LinksAddLines(w, front, engines, source, d);
      TargetsAddLines(LinksRead(w, front, engines, source), last.name, last.dependsOn, engines, source, d);
      SplitLast(services);
      assert SomeLine(d, services, engines, source)
             <==> SomeLine(d, front, engines, source) || SomeTarget(d, last.name, last.dependsOn, engines, source) by {
        assert forall s :: s in services <==> s in front || s == last;
      }
    }
  }

  /**
   * The file makes this line: one of its services depends on another name, and the line carries the engine its
   * services run under that name, if they run one.
   */
  ghost predicate ComposeLinks(services: seq<ComposeService>, d: ComposeDependency, path: string, isTest: bool) {
    && d.evidencePath == path && d.fromTestFile == isTest && d.from != d.to && RunsAs(services, d.to, d.engine)
    && exists s :: s in services && s.name == d.from && d.to in s.dependsOn
  }

  lemma LineIsALink(services: seq<ComposeService>, d: ComposeDependency, source: Source)
    ensures SomeLine(d, services, Engines(services), source)
            <==> ComposeLinks(services, d, source.path, source.fromTestFile)
  {
    var engines := Engines(services);
    hide Engines, EngineOf, RunsAs;
    EngineIsTheLast(services, d.to);
    if SomeLine(d, services, engines, source) {
      var s :| s in services && SomeTarget(d, s.name, s.dependsOn, engines, source);
      var t :| t in s.dependsOn && IsLink(d, s.name, t, EngineOf(engines, t), source);
    }
    if ComposeLinks(services, d, source.path, source.fromTestFile) {
      var s :| s in services && s.name == d.from && d.to in s.dependsOn;
      EngineIsUnique(services, d.to, d.engine, EngineOf(engines, d.to));
      assert IsLink(d, s.name, d.to, EngineOf(engines, d.to), source);
      assert SomeTarget(d, s.name, s.dependsOn, engines, source);
    }
  }

  /** Reading a compose file records exactly the lines it makes. */
  lemma ComposeDependenciesExactly(w: Configuration, services: seq<ComposeService>, source: Source,
                                   d: ComposeDependency)
    ensures d in ComposeRead(w, services, source).dependencies
            <==> d in w.dependencies || ComposeLinks(services, d, source.path, source.fromTestFile)
  {
    hide LinksRead, ServicesRead, Engines, ComposeLinks, SomeLine;
    LinksAddLines(w.(found := ServicesRead(w.found, services, source)), services, Engines(services), source, d);
    LineIsALink(services, d, source);
  }

  ghost predicate PathLinks(input: Input<ConfigFile>, path: string, d: ComposeDependency) {
    match FileAt(input, path)
    case Some(Compose(services, isTest)) => ComposeLinks(services, d, path, isTest)
    case _ => false
  }

  ghost predicate SomePathLinks(input: Input<ConfigFile>, paths: seq<string>, d: ComposeDependency) {
    exists p :: p in paths && PathLinks(input, p, d)
  }

  lemma PathAddsLines(w: Configuration, input: Input<ConfigFile>, path: string, reader: Reader, d: ComposeDependency)
    ensures d in PathRead(w, input, path, reader).dependencies <==> d in w.dependencies || PathLinks(input, path, d)
  {
    hide ComposeRead, ComposeLinks, Scanned, ChartRead, AllDeclared;
    match FileAt(input, path)
    case Some(Compose(services, isTest)) => ComposeDependenciesExactly(w, services, Source(path, isTest, reader), d);
    case _ =>
  }

  /** The topology read off a list of files is exactly the lines its compose files make. */
  lemma {:induction false} DependenciesExactly(input: Input<ConfigFile>, paths: seq<string>, reader: Reader,
                                               d: ComposeDependency)
    ensures d in PathsRead(input, paths, reader).dependencies <==> SomePathLinks(input, paths, d)
  {
    hide PathRead, PathLinks;
    if paths != [] {
      var front, last := paths[..|paths| - 1], paths[|paths| - 1];
      DependenciesExactly(input, front, reader, d);
      PathAddsLines(PathsRead(input, front, reader), input, last, reader, d);
      SplitLast(paths);
      assert forall p :: p in paths <==> p in front || p == last;
    }
  }

  // ── hints ──────────────────────────────────────────────────────────────────

  /**
   * A variable hints at an engine: its name is one that implies the engine, whatever its value; or it is a
   * connection-like one whose value parses to that engine at no host that could be shared.
   */
  predicate ValueHints(name: string, value: string, reader: Reader, engine: string) {
    engine != ""
    && (|| (ToUpper(name) in ENGINE_HINTS && ENGINE_HINTS[ToUpper(name)] == engine)
        || (value != "" && LooksLikeConnectionKey(name) && reader.dsn(value).Some? && reader.dsn(value).value.engine == engine
            && (reader.dsn(value).value.host == "" || IsPlaceholderHost(reader.dsn(value).value.host))))
  }

  ghost predicate EntryHints(env: map<string, string>, reader: Reader, engine: string) {
    exists name :: name in env && ValueHints(name, env[name], reader, engine)
  }

  ghost predicate FileHints(file: ConfigFile, reader: Reader, engine: string) {
    match file
    case Compose(services, _) => exists s :: s in services && EntryHints(s.environment, reader, engine)
    case HelmChart(_) => false
    case K8sManifest(_, _, environment) => EntryHints(environment, reader, engine)
    case Values(environment) => EntryHints(environment, reader, engine)
  }

  ghost predicate PathHints(input: Input<ConfigFile>, path: string, reader: Reader, engine: string) {
    FileAt(input, path).Some? && FileHints(FileAt(input, path).value, reader, engine)
  }

  lemma EntryAddsHints(c: Collected, name: string, value: string, source: Source, engine: string)
    ensures engine in Effected(c, EffectOf(name, value, source), source.path).hints
            <==> engine in c.hints || ValueHints(name, value, source.reader, engine)
  {
    hide LooksLikeConnectionKey, IsPlaceholderHost, Recorded, Consuming;
  }

  ghost predicate SomeHints(env: map<string, string>, done: set<string>, reader: Reader, engine: string) {
    exists name :: name in done && name in env && ValueHints(name, env[name], reader, engine)
  }

  lemma {:induction false} ScanAddsHints(c: Collected, env: map<string, string>, done: set<string>, source: Source,
                                         engine: string)
    requires done <= env.Keys
    ensures engine in FoldSet(EntryStep(env, source), c, done).hints
            <==> engine in c.hints || SomeHints(env, done, source.reader, engine)
    decreases |done|
  {
    hide EntryStep, FoldSet, ValueHints;
    if done == {} {
      FoldNothing(EntryStep(env, source), c);
    } else {
      var name :| name in done;
      var rest := done - {name};
      ScanAddsHints(c, env, rest, source, engine);
      OneMoreEntry(c, env, rest, name, source);
      assert rest + {name} == done;
      EntryAddsHints(FoldSet(EntryStep(env, source), c, rest), name, env[name], source, engine);
    }
  }

  lemma EnvironmentAddsHints(c: Collected, env: map<string, string>, source: Source, engine: string)
    ensures engine in Scanned(c, env, source).hints <==> engine in c.hints || EntryHints(env, source.reader, engine)
  {
    hide EntryStep, FoldSet, ValueHints;
    ScanAddsHints(c, env, env.Keys, source, engine);
  }

  ghost predicate SomeServiceHints(services: seq<ComposeService>, reader: Reader, engine: string) {
    exists s :: s in services && EntryHints(s.environment, reader, engine)
  }

  lemma {:induction false} ServicesAddHints(c: Collected, services: seq<ComposeService>, source: Source, engine: string)
    ensures engine in ServicesRead(c, services, source).hints
            <==> engine in c.hints || SomeServiceHints(services, source.reader, engine)
  {
    hide Scanned, EntryHints;
    if services != [] {
      var front, last := services[..|services| - 1], services[|services| - 1];
      var before := ServicesRead(c, front, source);
      ServicesAddHints(c, front, source, engine);
      var imaged := if last.engine == "" then before
                    else WithResource(before, LocalEngine(last.engine, last.name + " (local)", COMPOSE_IMAGE),
                                      source.path);
      EnvironmentAddsHints(imaged, last.environment, source, engine);
      SplitLast(services);
      assert forall s :: s in services <==> s in front || s == last;
    }
  }

  lemma LinkAddsNoHint(w: Configuration, service: string, target: string, engines: map<string, string>, source: Source)
    ensures LinkRead(w, service, target, engines, source).found.hints == w.found.hints
  {
  }

  lemma {:induction false} TargetsAddNoHint(w: Configuration, service: string, targets: seq<string>,
                                            engines: map<string, string>, source: Source)
    ensures TargetsRead(w, service, targets, engines, source).found.hints == w.found.hints
  {
    if targets != [] {
      TargetsAddNoHint(w, service, targets[..|targets| - 1], engines, source);
      LinkAddsNoHint(TargetsRead(w, service, targets[..|targets| - 1], engines, source), service,
                     targets[|targets| - 1], engines, source);
    }
  }

  lemma {:induction false} LinksAddNoHint(w: Configuration, services: seq<ComposeService>, engines: map<string,
                                          string>, source: Source)
    ensures LinksRead(w, services, engines, source).found.hints == w.found.hints
  {
    if services != [] {
      var front, last := services[..|services| - 1], services[|services| - 1];
      LinksAddNoHint(w, front, engines, source);
      TargetsAddNoHint(LinksRead(w, front, engines, source), last.name, last.dependsOn, engines, source);
    }
  }

  lemma {:induction false} ChartAddsNoHint(c: Collected, subcharts: seq<Subchart>, path: string)
    ensures ChartRead(c, subcharts, path).hints == c.hints
  {
    if subcharts != [] {
      ChartAddsNoHint(c, subcharts[..|subcharts| - 1], path);
    }
  }

  lemma FileAddsHints(w: Configuration, file: ConfigFile, source: Source, engine: string)
    ensures engine in FileRead(w, file, source).found.hints
            <==> engine in w.found.hints || FileHints(file, source.reader, engine)
  {
    hide ServicesRead, LinksRead, ChartRead, Scanned, EntryHints, AllDeclared, Engines;
    match file
    case Compose(services, isTest) =>
      var read := source.(fromTestFile := isTest);
      ServicesAddHints(w.found, services, read, engine);
      LinksAddNoHint(w.(found := ServicesRead(w.found, services, read)), services, Engines(services), read);
    case HelmChart(subcharts) => ChartAddsNoHint(w.found, subcharts, source.path);
    case K8sManifest(_, _, environment) => EnvironmentAddsHints(w.found, environment, source, engine);
    case Values(environment) => EnvironmentAddsHints(w.found, environment, source, engine);
  }

  lemma PathAddsHints(w: Configuration, input: Input<ConfigFile>, path: string, reader: Reader, engine: string)
    ensures engine in PathRead(w, input, path, reader).found.hints
            <==> engine in w.found.hints || PathHints(input, path, reader, engine)
  {
    hide FileRead, FileHints;
    if FileAt(input, path).Some? {
      FileAddsHints(w, FileAt(input, path).value, Source(path, false, reader), engine);
    }
  }

  ghost predicate SomePathHints(input: Input<ConfigFile>, paths: seq<string>, reader: Reader, engine: string) {
    exists p :: p in paths && PathHints(input, p, reader, engine)
  }

  /** An engine is hinted at exactly when some variable of some file read hints at it. */
  lemma {:induction false} HintsExactly(input: Input<ConfigFile>, paths: seq<string>, reader: Reader, engine: string)
    ensures engine in PathsRead(input, paths, reader).found.hints <==> SomePathHints(input, paths, reader, engine)
  {
    hide PathRead, PathHints;
    if paths != [] {
      var front, last := paths[..|paths| - 1], paths[|paths| - 1];
      HintsExactly(input, front, reader, engine);
      PathAddsHints(PathsRead(input, front, reader), input, last, reader, engine);
      SplitLast(paths);
      assert forall p :: p in paths <==> p in front || p == last;
    }
  }
}
