/** Which hosts a tree's configuration files consume, and which services and public hosts they declare. */
module ConfigHosts {
  import opened Wrappers
  import opened AnyOrder
  import opened Text
  import opened Hosts
  import opened Collector
  import opened ConfigFiles
  import opened ConfigProperties
  import opened ConfigTopology
  import opened Extraction

  // ── what one file consumes ─────────────────────────────────────────────────

  /** The variable is a connection-like one and its value, no connection string, names this host. */
  predicate ValueConsumes(name: string, value: string, reader: Reader, host: string) {
    && value != "" && LooksLikeConnectionKey(name) && reader.dsn(value).None? && reader.host(value).Some?
    && Normal(reader.host(value).value) == host && host != "" && !IsPlaceholderHost(host)
  }

  predicate EntryConsumes(env: map<string, string>, reader: Reader, host: string, name: string) {
    name in env && ValueConsumes(name, env[name], reader, host)
  }

  /** The service depends on another of that name, which the file runs as no engine and which is no placeholder. */
  ghost predicate DependsByName(services: seq<ComposeService>, service: ComposeService, host: string) {
    exists t :: t in service.dependsOn && t != service.name && !RunsEngine(services, t)
                && Normal(t) == host && host != "" && !IsPlaceholderHost(host)
  }

  /** Some service of the file names the host in its environment, or depends on it by name. */
  ghost predicate ComposeConsumes(services: seq<ComposeService>, reader: Reader, host: string, name: string) {
    || (exists s :: s in services && EntryConsumes(s.environment, reader, host, name))
    || (name == "" && exists s :: s in services && DependsByName(services, s, host))
  }

  ghost predicate FileConsumes(file: ConfigFile, reader: Reader, host: string, name: string) {
    match file
    case Compose(services, isTest) => ComposeConsumes(services, reader, host, name)
    case HelmChart(subcharts) => false
    case K8sManifest(serviceNames, ingressHosts, environment) => EntryConsumes(environment, reader, host, name)
    case Values(environment) => EntryConsumes(environment, reader, host, name)
  }

  ghost predicate PathConsumes(input: Input<ConfigFile>, path: string, reader: Reader, host: string, name: string) {
    FileAt(input, path).Some? && FileConsumes(FileAt(input, path).value, reader, host, name)
  }

  ghost predicate DeclaredAmong(names: seq<string>, name: string) {
    exists n :: n in names && name == ToLower(n) && n != "" && !IsPlaceholderHost(n)
  }

  ghost predicate PathDeclares(input: Input<ConfigFile>, path: string, service: bool, name: string) {
    match FileAt(input, path)
    case Some(K8sManifest(serviceNames, ingressHosts, _)) => DeclaredAmong(if service then serviceNames else ingressHosts, name)
    case _ => false
  }

  // ── from entries to trees ──────────────────────────────────────────────────

  lemma EntryAddsHost(c: Collected, entry: string, value: string, source: Source, host: string, name: string)
    ensures (host, name) in Effected(c, EffectOf(entry, value, source), source.path).consumed
            <==> (host, name) in c.consumed || (entry == name && ValueConsumes(entry, value, source.reader, host))
  {
    hide LooksLikeConnectionKey, IsPlaceholderHost, Normal, Recorded;
    EffectShape(entry, value, source);
  }

  lemma {:induction false} ScanAddsHosts(c: Collected, env: map<string, string>, done: set<string>, source: Source,
                                         host: string, name: string)
    requires done <= env.Keys
    ensures (host, name) in FoldSet(EntryStep(env, source), c, done).consumed
            <==> (host, name) in c.consumed || (name in done && EntryConsumes(env, source.reader, host, name))
    decreases |done|
  {
    hide EntryStep, FoldSet, ValueConsumes;
    if done == {} {
      FoldNothing(EntryStep(env, source), c);
    } else {
      var entry :| entry in done;
      var rest := done - {entry};
      ScanAddsHosts(c, env, rest, source, host, name);
      OneMoreEntry(c, env, rest, entry, source);
      assert rest + {entry} == done;
      EntryAddsHost(FoldSet(EntryStep(env, source), c, rest), entry, env[entry], source, host, name);
    }
  }

  lemma EnvironmentAddsHosts(c: Collected, env: map<string, string>, source: Source, host: string, name: string)
    ensures (host, name) in Scanned(c, env, source).consumed
            <==> (host, name) in c.consumed || EntryConsumes(env, source.reader, host, name)
  {
    hide EntryStep, FoldSet, ValueConsumes;
    ScanAddsHosts(c, env, env.Keys, source, host, name);
  }

  ghost predicate SomeEnvironment(services: seq<ComposeService>, reader: Reader, host: string, name: string) {
    exists s :: s in services && EntryConsumes(s.environment, reader, host, name)
  }

  lemma {:induction false} ServicesAddHosts(c: Collected, services: seq<ComposeService>, source: Source, host: string,
                                            name: string)
    ensures (host, name) in ServicesRead(c, services, source).consumed
            <==> (host, name) in c.consumed || SomeEnvironment(services, source.reader, host, name)
  {
    hide Scanned, EntryConsumes;
    if services != [] {
      var front, last := services[..|services| - 1], services[|services| - 1];
      var before := ServicesRead(c, front, source);
      ServicesAddHosts(c, front, source, host, name);
      var imaged := if last.engine == "" then before
                    else WithResource(before, LocalEngine(last.engine, last.name + " (local)", COMPOSE_IMAGE),
                                      source.path);
      EnvironmentAddsHosts(imaged, last.environment, source, host, name);
      SplitLast(services);
      assert forall s :: s in services <==> s in front || s == last;
    }
  }

  /** The target is consumed under the name `host`, as the second loop over the file sees its engines. */
  predicate IsAlias(target: string, service: string, engines: map<string, string>, host: string) {
    target != service && EngineOf(engines, target) == "" && Normal(target) == host && host != "" && !IsPlaceholderHost(host)
  }

  ghost predicate Aliased(service: ComposeService, engines: map<string, string>, host: string) {
    SomeAlias(service.dependsOn, service.name, engines, host)
  }

  ghost predicate SomeAlias(targets: seq<string>, service: string, engines: map<string, string>, host: string) {
    exists t :: t in targets && IsAlias(t, service, engines, host)
  }

  lemma AliasIsByName(services: seq<ComposeService>, service: ComposeService, host: string)
    ensures Aliased(service, Engines(services), host) <==> DependsByName(services, service, host)
  {
    hide Engines, EngineOf, RunsEngine, Normal, IsPlaceholderHost;
    forall t
      ensures EngineOf(Engines(services), t) == "" <==> !RunsEngine(services, t)
    {
      EngineOrNone(services, t);
    }
  }

  lemma LinkAddsAlias(w: Configuration, service: string, target: string, engines: map<string, string>, source: Source,
                      host: string, name: string)
    ensures (host, name) in LinkRead(w, service, target, engines, source).found.consumed
            <==> (host, name) in w.found.consumed || (name == "" && IsAlias(target, service, engines, host))
  {
    hide Normal, IsPlaceholderHost;
  }

  lemma {:induction false} TargetsAddAliases(w: Configuration, service: string, targets: seq<string>,
                                             engines: map<string, string>,
                                             source: Source, host: string, name: string)
    ensures (host, name) in TargetsRead(w, service, targets, engines, source).found.consumed
            <==> (host, name) in w.found.consumed || (name == "" && SomeAlias(targets, service, engines, host))
  {
    hide IsAlias, LinkRead;
    if targets != [] {
      var front, last := targets[..|targets| - 1], targets[|targets| - 1];
      TargetsAddAliases(w, service, front, engines, source, host, name);
      LinkAddsAlias(TargetsRead(w, service, front, engines, source), service, last, engines, source, host, name);
      SplitLast(targets);
      assert forall t :: t in targets <==> t in front || t == last;
    }
  }

  ghost predicate SomeAliased(services: seq<ComposeService>, engines: map<string, string>, host: string) {
    exists s :: s in services && Aliased(s, engines, host)
  }

  lemma {:induction false} LinksAddAliases(w: Configuration, services: seq<ComposeService>, engines: map<string,
                                           string>, source: Source,
                                           host: string, name: string)
    ensures (host, name) in LinksRead(w, services, engines, source).found.consumed
            <==> (host, name) in w.found.consumed || (name == "" && SomeAliased(services, engines, host))
  {
    hide SomeAlias, TargetsRead;
    if services != [] {
      var front, last := services[..|services| - 1], services[|services| - 1];
      LinksAddAliases(w, front, engines, source, host, name);
      TargetsAddAliases(LinksRead(w, front, engines, source), last.name, last.dependsOn, engines, source, host, name);
      SplitLast(services);
      assert SomeAliased(services, engines, host) <==> SomeAliased(front, engines, host) || Aliased(last, engines, host) by {
        assert forall s :: s in services <==> s in front || s == last;
      }
    }
  }

  /**
   * Reading a compose file makes the repository a consumer of exactly the hosts its services' environments name
   * under their variables, and, under no variable, the names its services depend on, except those the file itself
   * runs an engine under: a database never becomes a consumed component.
   */
  lemma ComposeHostsExactly(w: Configuration, services: seq<ComposeService>, source: Source, host: string, name: string)
    ensures (host, name) in ComposeRead(w, services, source).found.consumed
            <==> (host, name) in w.found.consumed || ComposeConsumes(services, source.reader, host, name)
  {
    hide ServicesRead, LinksRead, Engines, Aliased, DependsByName, EntryConsumes;
    ServicesAddHosts(w.found, services, source, host, name);
    LinksAddAliases(w.(found := ServicesRead(w.found, services, source)), services, Engines(services), source, host,
                    name);
    forall s | s in services
      ensures Aliased(s, Engines(services), host) <==> DependsByName(services, s, host)
    {
      AliasIsByName(services, s, host);
    }
  }

  lemma ChartAddsNoHost(c: Collected, subcharts: seq<Subchart>, path: string)
    ensures ChartRead(c, subcharts, path).consumed == c.consumed
  {
  }

  lemma FileAddsHosts(w: Configuration, file: ConfigFile, source: Source, host: string, name: string)
    ensures (host, name) in FileRead(w, file, source).found.consumed
            <==> (host, name) in w.found.consumed || FileConsumes(file, source.reader, host, name)
  {
    hide ComposeRead, ComposeConsumes, ChartRead, Scanned, EntryConsumes, AllDeclared;
    match file
    case Compose(services, isTest) => ComposeHostsExactly(w, services, source.(fromTestFile := isTest), host, name);
    case HelmChart(subcharts) => ChartAddsNoHost(w.found, subcharts, source.path);
    case K8sManifest(serviceNames, ingressHosts, environment) => EnvironmentAddsHosts(w.found, environment, source, host, name);
    case Values(environment) => EnvironmentAddsHosts(w.found, environment, source, host, name);
  }

  ghost predicate SomePathConsumes(input: Input<ConfigFile>, paths: seq<string>, reader: Reader, host: string,
                                   name: string)
  {
    exists p :: p in paths && PathConsumes(input, p, reader, host, name)
  }

  lemma PathAddsHosts(w: Configuration, input: Input<ConfigFile>, path: string, reader: Reader, host: string,
                      name: string)
    ensures (host, name) in PathRead(w, input, path, reader).found.consumed
            <==> (host, name) in w.found.consumed || PathConsumes(input, path, reader, host, name)
  {
    hide FileRead, FileConsumes;
    if FileAt(input, path).Some? {
      FileAddsHosts(w, FileAt(input, path).value, Source(path, false, reader), host, name);
    }
  }

  /** Reading files finds exactly the hosts they name, each under the variable that names it. */
  lemma {:induction false} HostsExactly(input: Input<ConfigFile>, paths: seq<string>, reader: Reader, host: string,
                                        name: string)
    ensures (host, name) in PathsRead(input, paths, reader).found.consumed
            <==> SomePathConsumes(input, paths, reader, host, name)
  {
    hide PathRead, PathConsumes;
    if paths != [] {
      var front, last := paths[..|paths| - 1], paths[|paths| - 1];
      HostsExactly(input, front, reader, host, name);
      PathAddsHosts(PathsRead(input, front, reader), input, last, reader, host, name);
      SplitLast(paths);
      assert forall p :: p in paths <==> p in front || p == last;
    }
  }

  // ── what is declared ───────────────────────────────────────────────────────

  lemma {:induction false} DeclaredExactly(names: seq<string>, name: string)
    ensures name in AllDeclared(names) <==> DeclaredAmong(names, name)
  {
    if names != [] {
      var front, last := names[..|names| - 1], names[|names| - 1];
      DeclaredExactly(front, name);
      SplitLast(names);
      assert forall n :: n in names <==> n in front || n == last;
    }
  }

  lemma {:induction false} TargetsDeclareNothing(w: Configuration, service: string, targets: seq<string>,
                                                 engines: map<string, string>, source: Source)
    ensures var after := TargetsRead(w, service, targets, engines, source); after.services == w.services && after.hosts == w.hosts
  {
    if targets != [] {
      TargetsDeclareNothing(w, service, targets[..|targets| - 1], engines, source);
    }
  }

  lemma {:induction false} LinksDeclareNothing(w: Configuration, services: seq<ComposeService>, engines: map<string,
                                               string>, source: Source)
    ensures var after := LinksRead(w, services, engines, source); after.services == w.services && after.hosts == w.hosts
  {
    if services != [] {
      var front, last := services[..|services| - 1], services[|services| - 1];
      LinksDeclareNothing(w, front, engines, source);
      TargetsDeclareNothing(LinksRead(w, front, engines, source), last.name, last.dependsOn, engines, source);
    }
  }

  ghost predicate SomePathDeclares(input: Input<ConfigFile>, paths: seq<string>, service: bool, name: string) {
    exists p :: p in paths && PathDeclares(input, p, service, name)
  }

  lemma FileDeclares(w: Configuration, file: ConfigFile, source: Source, name: string)
    ensures var after := FileRead(w, file, source);
            && (name in after.services <==> name in w.services || (file.K8sManifest? && DeclaredAmong(file.serviceNames, name)))
            && (name in after.hosts <==> name in w.hosts || (file.K8sManifest? && DeclaredAmong(file.ingressHosts, name)))
  {
    hide ServicesRead, LinksRead, ChartRead, Scanned, AllDeclared, Engines, DeclaredAmong;
    match file
    case Compose(services, isTest) =>
      var read := source.(fromTestFile := isTest);
      LinksDeclareNothing(w.(found := ServicesRead(w.found, services, read)), services, Engines(services), read);
    case K8sManifest(serviceNames, ingressHosts, environment) =>
      DeclaredExactly(serviceNames, name);
      DeclaredExactly(ingressHosts, name);
    case _ =>
  }

  lemma PathAddsDeclarations(w: Configuration, input: Input<ConfigFile>, path: string, reader: Reader, name: string)
    ensures var after := PathRead(w, input, path, reader);
            && (name in after.services <==> name in w.services || PathDeclares(input, path, true, name))
            && (name in after.hosts <==> name in w.hosts || PathDeclares(input, path, false, name))
  {
    hide FileRead, DeclaredAmong;
    if FileAt(input, path).Some? {
      FileDeclares(w, FileAt(input, path).value, Source(path, false, reader), name);
    }
  }

  /**
   * Only Kubernetes manifests declare, and a tree declares exactly what they list, in lower case and without
   * placeholders.
   */
  lemma {:induction false} DeclarationsExactly(input: Input<ConfigFile>, paths: seq<string>, reader: Reader,
                                               name: string)
    ensures name in PathsRead(input, paths, reader).services <==> SomePathDeclares(input, paths, true, name)
    ensures name in PathsRead(input, paths, reader).hosts <==> SomePathDeclares(input, paths, false, name)
  {
    hide PathRead, PathDeclares;
    if paths != [] {
      var front, last := paths[..|paths| - 1], paths[|paths| - 1];
      DeclarationsExactly(input, front, reader, name);
      PathAddsDeclarations(PathsRead(input, front, reader), input, last, reader, name);
      SplitLast(paths);
      assert forall p :: p in paths <==> p in front || p == last;
    }
  }
}
