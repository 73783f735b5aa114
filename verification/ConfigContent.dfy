/**
 * What is kept of each host and each resource that a tree's configuration files name: from which file, under which
 * rule.
 */
module ConfigContent {
  import opened Wrappers
  import opened AnyOrder
  import opened Hosts
  import opened HostNames
  import opened Collector
  import opened CollectorProperties
  import opened CollectorContent
  import opened ConfigFiles
  import opened ConfigProperties
  import opened ConfigHosts
  import opened Extraction

  // ── hosts ──────────────────────────────────────────────────────────────────

  /** One sighting of a host: a name from `depends_on` when there is no variable, a declared host under one. */
  function Heard(host: string, name: string, path: string, fromTestFile: bool): HostFinding {
    HostFinding(host, name, path, if name == "" then "consume.compose_depends_on" else "consume.k8s_service_host",
                if name == "" then 0.75 else 0.85, fromTestFile)
  }

  function HostAt(consumed: map<(string, string), HostFinding>, host: string, name: string): Option<HostFinding> {
    if (host, name) in consumed then Some(consumed[(host, name)]) else None
  }

  function Again(known: Option<HostFinding>, sighting: HostFinding): Option<HostFinding> {
    Some(if known.Some? then Seen(known.value, sighting) else sighting)
  }

  lemma OnceIsEnough(known: Option<HostFinding>, sighting: HostFinding)
    ensures Again(Again(known, sighting), sighting) == Again(known, sighting)
  {
  }

  lemma ConsumingAdds(consumed: map<(string, string), HostFinding>, raw: HostFinding, host: string, name: string)
    ensures HostAt(Consuming(consumed, raw), host, name)
         == if Normal(raw.host) == host && raw.envVar == name && host != "" && !IsPlaceholderHost(host)
            then Again(HostAt(consumed, host, name), raw.(host := host)) else HostAt(consumed, host, name)
  {
    hide Normal, IsPlaceholderHost;
  }

  lemma ConnectionKeyIsNamed(name: string)
    ensures LooksLikeConnectionKey(name) ==> name != ""
  {
    ConnectionKeyIff(name);
  }

  /** The sighting is added when it is made, and nothing changes when it is not. */
  ghost predicate Hears(before: Collected, after: Collected, host: string, name: string, source: Source, heard: bool) {
    HostAt(after.consumed, host, name)
    == if heard then Again(HostAt(before.consumed, host, name), Heard(host, name, source.path, source.fromTestFile))
       else HostAt(before.consumed, host, name)
  }

  lemma HearingTwice(a: Collected, b: Collected, c: Collected, host: string, name: string, source: Source, first: bool,
                     second: bool)
    requires Hears(a, b, host, name, source, first) && Hears(b, c, host, name, source, second)
    ensures Hears(a, c, host, name, source, first || second)
  {
    OnceIsEnough(HostAt(a.consumed, host, name), Heard(host, name, source.path, source.fromTestFile));
  }

  lemma EntryHears(c: Collected, entry: string, value: string, source: Source, host: string, name: string)
    ensures Hears(c, Effected(c, EffectOf(entry, value, source), source.path), host, name, source,
                  entry == name && ValueConsumes(entry, value, source.reader, host))
  {
    hide LooksLikeConnectionKey, IsPlaceholderHost, Normal, Recorded, Consuming, HostAt;
    var e := EffectOf(entry, value, source);
    ConnectionKeyIsNamed(entry);
    if e.host.Some? {
      ConsumingAdds(c.consumed, e.host.value, host, name);
    }
  }

  lemma {:induction false} ScanHears(c: Collected, env: map<string, string>, done: set<string>, source: Source,
                                     host: string, name: string)
    requires done <= env.Keys
    ensures Hears(c, FoldSet(EntryStep(env, source), c, done), host, name, source,
                  name in done && EntryConsumes(env, source.reader, host, name))
    decreases |done|
  {
    hide EntryStep, FoldSet, ValueConsumes, Hears, EffectOf, Effected;
    if done == {} {
      FoldNothing(EntryStep(env, source), c);
      NothingHeard(c, host, name, source);
    } else {
      var entry :| entry in done;
      var rest := done - {entry};
      var before := FoldSet(EntryStep(env, source), c, rest);
      ScanHears(c, env, rest, source, host, name);
      OneMoreEntry(c, env, rest, entry, source);
      assert rest + {entry} == done;
      EntryHears(before, entry, env[entry], source, host, name);
      HearingTwice(c, before, FoldSet(EntryStep(env, source), c, done), host, name, source,
                   name in rest && EntryConsumes(env, source.reader, host, name),
                   entry == name && ValueConsumes(entry, env[entry], source.reader, host));
    }
  }

  lemma NothingHeard(c: Collected, host: string, name: string, source: Source)
    ensures Hears(c, c, host, name, source, false)
  {
  }

  lemma EnvironmentHears(c: Collected, env: map<string, string>, source: Source, host: string, name: string)
    ensures Hears(c, Scanned(c, env, source), host, name, source, EntryConsumes(env, source.reader, host, name))
  {
    hide EntryStep, FoldSet, ValueConsumes, Hears;
    ScanHears(c, env, env.Keys, source, host, name);
  }

  lemma ImageHearsNothing(c: Collected, finding: ResourceFinding, source: Source, host: string, name: string)
    ensures Hears(c, WithResource(c, finding, source.path), host, name, source, false)
  {
  }

  lemma ServiceHears(c: Collected, service: ComposeService, source: Source, host: string, name: string)
    ensures Hears(c, ServiceRead(c, service, source), host, name, source,
                  EntryConsumes(service.environment, source.reader, host, name))
  {
    hide Hears, Scanned, EntryConsumes, WithResource;
    if service.engine == "" {
      EnvironmentHears(c, service.environment, source, host, name);
    } else {
      var own := LocalEngine(service.engine, service.name + " (local)", COMPOSE_IMAGE);
      ImageHearsNothing(c, own, source, host, name);
      EnvironmentHears(WithResource(c, own, source.path), service.environment, source, host, name);
      HearingTwice(c, WithResource(c, own, source.path), ServiceRead(c, service, source), host, name, source, false,
                   EntryConsumes(service.environment, source.reader, host, name));
    }
  }

  lemma {:induction false} ServicesHear(c: Collected, services: seq<ComposeService>, source: Source, host: string,
                                        name: string)
    ensures Hears(c, ServicesRead(c, services, source), host, name, source,
                  SomeEnvironment(services, source.reader, host, name))
  {
    hide Hears, ServiceRead, EntryConsumes;
    NothingHeard(c, host, name, source);
    if services != [] {
      var front, last := services[..|services| - 1], services[|services| - 1];
      var before := ServicesRead(c, front, source);
      ServicesHear(c, front, source, host, name);
      ServiceHears(before, last, source, host, name);
      HearingTwice(c, before, ServicesRead(c, services, source), host, name, source,
                   SomeEnvironment(front, source.reader, host, name),
                   EntryConsumes(last.environment, source.reader, host, name));
      SplitLast(services);
      assert forall s :: s in services <==> s in front || s == last;
    }
  }

  lemma LinkHears(w: Configuration, service: string, target: string, engines: map<string, string>, source: Source,
                  host: string, name: string)
    ensures Hears(w.found, LinkRead(w, service, target, engines, source).found, host, name, source,
                  name == "" && IsAlias(target, service, engines, host))
  {
    hide Normal, IsPlaceholderHost, Consuming, HostAt, Again;
    ConsumingAdds(w.found.consumed, AliasEntry(target, source), host, name);
  }

  lemma {:induction false} TargetsHear(w: Configuration, service: string, targets: seq<string>,
                                       engines: map<string, string>, source: Source, host: string, name: string)
    ensures Hears(w.found, TargetsRead(w, service, targets, engines, source).found, host, name, source,
                  name == "" && SomeAlias(targets, service, engines, host))
  {
    hide Hears, LinkRead, IsAlias;
    NothingHeard(w.found, host, name, source);
    if targets != [] {
      var front, last := targets[..|targets| - 1], targets[|targets| - 1];
      var before := TargetsRead(w, service, front, engines, source);
      TargetsHear(w, service, front, engines, source, host, name);
      LinkHears(before, service, last, engines, source, host, name);
      HearingTwice(w.found, before.found, TargetsRead(w, service, targets, engines, source).found, host, name, source,
                   name == "" && SomeAlias(front, service, engines, host),
                   name == "" && IsAlias(last, service, engines, host));
      SplitLast(targets);
      assert forall t :: t in targets <==> t in front || t == last;
    }
  }

  lemma {:induction false} LinksHear(w: Configuration, services: seq<ComposeService>, engines: map<string, string>,
                                     source: Source, host: string, name: string)
    ensures Hears(w.found, LinksRead(w, services, engines, source).found, host, name, source,
                  name == "" && SomeAliased(services, engines, host))
  {
    hide Hears, TargetsRead, SomeAlias;
    NothingHeard(w.found, host, name, source);
    if services != [] {
      var front, last := services[..|services| - 1], services[|services| - 1];
      var before := LinksRead(w, front, engines, source);
      LinksHear(w, front, engines, source, host, name);
      TargetsHear(before, last.name, last.dependsOn, engines, source, host, name);
      HearingTwice(w.found, before.found, LinksRead(w, services, engines, source).found, host, name, source,
                   name == "" && SomeAliased(front, engines, host), name == "" && Aliased(last, engines, host));
      SplitLast(services);
      assert forall s :: s in services <==> s in front || s == last;
    }
  }

  lemma ComposeHears(w: Configuration, services: seq<ComposeService>, source: Source, host: string, name: string)
    ensures Hears(w.found, ComposeRead(w, services, source).found, host, name, source,
                  ComposeConsumes(services, source.reader, host, name))
  {
    hide Hears, ServicesRead, LinksRead, Engines, Aliased, DependsByName, EntryConsumes;
    var read := w.(found := ServicesRead(w.found, services, source));
    ServicesHear(w.found, services, source, host, name);
    LinksHear(read, services, Engines(services), source, host, name);
    HearingTwice(w.found, read.found, ComposeRead(w, services, source).found, host, name, source,
                 SomeEnvironment(services, source.reader, host, name),
                 name == "" && SomeAliased(services, Engines(services), host));
    forall s | s in services
      ensures Aliased(s, Engines(services), host) <==> DependsByName(services, s, host)
    {
      AliasIsByName(services, s, host);
    }
  }

  /** Only a compose file meant for tests marks what it names as a test's. */
  predicate IsTestFile(file: ConfigFile) {
    file.Compose? && file.isTest
  }

  lemma FileHears(w: Configuration, file: ConfigFile, source: Source, host: string, name: string)
    requires !source.fromTestFile
    ensures Hears(w.found, FileRead(w, file, source).found, host, name, source.(fromTestFile := IsTestFile(file)),
                  FileConsumes(file, source.reader, host, name))
  {
    hide Hears, ComposeRead, ComposeConsumes, ChartRead, Scanned, EntryConsumes, AllDeclared;
    match file
    case Compose(services, isTest) => ComposeHears(w, services, source.(fromTestFile := isTest), host, name);
    case HelmChart(subcharts) => ChartHearsNothing(w.found, subcharts, source, host, name);
    case K8sManifest(serviceNames, ingressHosts, environment) => EnvironmentHears(w.found, environment, source, host, name);
    case Values(environment) => EnvironmentHears(w.found, environment, source, host, name);
  }

  lemma ChartHearsNothing(c: Collected, subcharts: seq<Subchart>, source: Source, host: string, name: string)
    ensures Hears(c, ChartRead(c, subcharts, source.path), host, name, source, false)
  {
    ChartAddsNoHost(c, subcharts, source.path);
  }

  /**
   * The sightings of a host under a variable: one for every file that names it there, in the order the files are
   * read.
   */
  ghost function HeardIn(input: Input<ConfigFile>, paths: seq<string>, reader: Reader, host: string,
                         name: string): seq<HostFinding>
  {
    if paths == [] then []
    else
      var before, path := HeardIn(input, paths[..|paths| - 1], reader, host, name), paths[|paths| - 1];
      if PathConsumes(input, path, reader, host, name)
      then before + [Heard(host, name, path, IsTestFile(FileAt(input, path).value))] else before
  }

  lemma PathHears(w: Configuration, input: Input<ConfigFile>, path: string, reader: Reader, host: string, name: string)
    ensures var after := PathRead(w, input, path, reader).found.consumed;
            HostAt(after, host, name)
            == if PathConsumes(input, path, reader, host, name)
               then Again(HostAt(w.found.consumed, host, name),
                          Heard(host, name, path, IsTestFile(FileAt(input, path).value)))
               else HostAt(w.found.consumed, host, name)
  {
    hide FileRead, FileConsumes;
    if FileAt(input, path).Some? {
      FileHears(w, FileAt(input, path).value, Source(path, false, reader), host, name);
    }
  }

  lemma EntryHostIsNormal(env: map<string, string>, reader: Reader, host: string, name: string)
    requires EntryConsumes(env, reader, host, name)
    ensures Normal(host) == host
  {
    hide LooksLikeConnectionKey, IsPlaceholderHost;
    NormalIsNormal(reader.host(env[name]).value);
  }

  lemma HostIsNormal(input: Input<ConfigFile>, path: string, reader: Reader, host: string, name: string)
    requires PathConsumes(input, path, reader, host, name)
    ensures FileAt(input, path).Some? && Normal(host) == host
  {
    hide EntryConsumes, IsPlaceholderHost;
    match FileAt(input, path).value
    case Compose(services, isTest) =>
      if s :| s in services && EntryConsumes(s.environment, reader, host, name) {
        EntryHostIsNormal(s.environment, reader, host, name);
      } else {
        var s :| s in services && DependsByName(services, s, host);
        var t :| t in s.dependsOn && Normal(t) == host;
        NormalIsNormal(t);
      }
    case K8sManifest(_, _, environment) => EntryHostIsNormal(environment, reader, host, name);
    case Values(environment) => EntryHostIsNormal(environment, reader, host, name);
    case _ =>
  }

  lemma FirstHeard(sighting: HostFinding)
    requires Normal(sighting.host) == sighting.host
    ensures Sums(sighting, [sighting])
  {
    FirstSighting(sighting);
  }

  /** What is kept of a host sums up the files that name it. */
  lemma {:induction false} KeptHostIsHeard(input: Input<ConfigFile>, paths: seq<string>, reader: Reader, host: string,
                                           name: string)
    ensures var kept, heard := HostAt(PathsRead(input, paths, reader).found.consumed, host, name), HeardIn(input, paths, reader, host, name);
            && (kept.Some? <==> heard != [])
            && (kept.Some? ==> Normal(host) == host && kept.value.host == host && kept.value.envVar == name && Sums(kept.value, heard))
  {
    hide PathRead, PathConsumes, Sums, Seen, HostAt, Normal;
    if paths == [] {
      NothingAt(host, name);
    } else {
      var front, path := paths[..|paths| - 1], paths[|paths| - 1];
      var heard := HeardIn(input, front, reader, host, name);
      KeptHostIsHeard(input, front, reader, host, name);
      PathHears(PathsRead(input, front, reader), input, path, reader, host, name);
      if PathConsumes(input, path, reader, host, name) {
        HostIsNormal(input, path, reader, host, name);
        var sighting := Heard(host, name, path, IsTestFile(FileAt(input, path).value));
        var known := HostAt(PathsRead(input, front, reader).found.consumed, host, name);
        if known.Some? {
          SeenAgain(known.value, heard, sighting);
        } else {
          FirstHeard(sighting);
          assert heard + [sighting] == [sighting];
        }
      }
    }
  }

  lemma NothingAt(host: string, name: string)
    ensures HostAt(NOTHING_READ.found.consumed, host, name) == None
  {
  }

  // ── resources ──────────────────────────────────────────────────────────────

  function EvidenceAt(resources: map<ResourceKey, ResourceFinding>, key: ResourceKey): seq<string> {
    if key in resources then resources[key].evidence else []
  }

  /** The path is cited for the finding when it is named there, and nothing changes when it is not. */
  ghost predicate Cites(before: Collected, after: Collected, f: ResourceFinding, path: string, named: bool) {
    && Tidy(after.resources)
    && EvidenceAt(after.resources, KeyOf(f))
       == if named then WithEvidence(EvidenceAt(before.resources, KeyOf(f)), path) else EvidenceAt(before.resources, KeyOf(f))
  }

  lemma CitingTwice(a: Collected, b: Collected, c: Collected, f: ResourceFinding, path: string, first: bool,
                    second: bool)
    requires Cites(a, b, f, path, first) && Cites(b, c, f, path, second)
    ensures Cites(a, c, f, path, first || second)
  {
    hide Tidy;
  }

  lemma NothingCited(c: Collected, f: ResourceFinding, path: string)
    requires Tidy(c.resources)
    ensures Cites(c, c, f, path, false)
  {
  }

  lemma RecordingCites(c: Collected, g: ResourceFinding, path: string, f: ResourceFinding)
    requires Tidy(c.resources) && Plain(g) && Plain(f)
    ensures Cites(c, WithResource(c, g, path), f, path, f == g)
  {
    RecordingPlain(c.resources, g, path, f);
    if KeyOf(f) == KeyOf(g) {
      SameKeySameFinding(f, g);
    }
    hide Tidy, Plain;
  }

  lemma CollectedAlike(a: Collected, b: Collected, c: Collected, f: ResourceFinding, path: string, named: bool)
    requires Cites(a, b, f, path, named) && b.resources == c.resources
    ensures Cites(a, c, f, path, named)
  {
    hide Tidy;
  }

  lemma EntryCites(c: Collected, name: string, value: string, source: Source, f: ResourceFinding)
    requires Tidy(c.resources) && Plain(f)
    ensures Cites(c, Effected(c, EffectOf(name, value, source), source.path), f, source.path,
                  ValueNames(name, value, source.reader, f))
  {
    hide Tidy, Plain, LooksLikeConnectionKey, Cites, Recorded, Consuming;
    var e := EffectOf(name, value, source);
    var after := Effected(c, e, source.path);
    if e.resource.Some? {
      var g := e.resource.value;
      PlainDsn(g.locator);
      RecordingCites(c, g, source.path, f);
      CollectedAlike(c, WithResource(c, g, source.path), after, f, source.path, f == g);
    } else {
      NothingCited(c, f, source.path);
      CollectedAlike(c, c, after, f, source.path, false);
    }
  }

  lemma {:induction false} ScanCites(c: Collected, env: map<string, string>, done: set<string>, source: Source,
                                     f: ResourceFinding)
    requires Tidy(c.resources) && Plain(f) && done <= env.Keys
    ensures Cites(c, FoldSet(EntryStep(env, source), c, done), f, source.path, SomeNames(env, done, source.reader, f))
    decreases |done|
  {
    hide Tidy, Plain, EntryStep, ValueNames, FoldSet, Cites, EffectOf, Effected;
    if done == {} {
      FoldNothing(EntryStep(env, source), c);
      NothingCited(c, f, source.path);
    } else {
      var name :| name in done;
      var rest := done - {name};
      var before := FoldSet(EntryStep(env, source), c, rest);
      ScanCites(c, env, rest, source, f);
      CitedIsTidy(c, before, f, source.path, SomeNames(env, rest, source.reader, f));
      OneMoreEntry(c, env, rest, name, source);
      assert rest + {name} == done;
      EntryCites(before, name, env[name], source, f);
      CitingTwice(c, before, FoldSet(EntryStep(env, source), c, done), f, source.path,
                  SomeNames(env, rest, source.reader, f), ValueNames(name, env[name], source.reader, f));
    }
  }

  lemma CitedIsTidy(a: Collected, b: Collected, f: ResourceFinding, path: string, named: bool)
    requires Cites(a, b, f, path, named)
    ensures Tidy(b.resources)
  {
  }

  lemma EnvironmentCites(c: Collected, env: map<string, string>, source: Source, f: ResourceFinding)
    requires Tidy(c.resources) && Plain(f)
    ensures Cites(c, Scanned(c, env, source), f, source.path, EntryNames(env, source.reader, f))
  {
    hide Tidy, Plain, EntryStep, ValueNames, FoldSet, Cites;
    ScanCites(c, env, env.Keys, source, f);
    assert SomeNames(env, env.Keys, source.reader, f) <==> EntryNames(env, source.reader, f);
  }

  lemma ServiceCites(c: Collected, service: ComposeService, source: Source, f: ResourceFinding)
    requires Tidy(c.resources) && Plain(f)
    ensures Cites(c, ServiceRead(c, service, source), f, source.path, ServiceNames(service, source.reader, f))
  {
    hide Tidy, Plain, EntryNames, Scanned, Recorded, Cites, WithResource;
    if service.engine == "" {
      EnvironmentCites(c, service.environment, source, f);
    } else {
      var own := LocalEngine(service.engine, service.name + " (local)", COMPOSE_IMAGE);
      PlainLocal(service.engine, service.name, Subchart("", "", ""));
      RecordingCites(c, own, source.path, f);
      CitedIsTidy(c, WithResource(c, own, source.path), f, source.path, f == own);
      EnvironmentCites(WithResource(c, own, source.path), service.environment, source, f);
      CitingTwice(c, WithResource(c, own, source.path), ServiceRead(c, service, source), f, source.path, f == own,
                  EntryNames(service.environment, source.reader, f));
    }
  }

  lemma {:induction false} ServicesCite(c: Collected, services: seq<ComposeService>, source: Source, f: ResourceFinding)
    requires Tidy(c.resources) && Plain(f)
    ensures Cites(c, ServicesRead(c, services, source), f, source.path, SomeService(services, source.reader, f))
  {
    hide Tidy, Plain, ServiceRead, ServiceNames, Cites;
    NothingCited(c, f, source.path);
    if services != [] {
      var front, last := services[..|services| - 1], services[|services| - 1];
      var before := ServicesRead(c, front, source);
      ServicesCite(c, front, source, f);
      CitedIsTidy(c, before, f, source.path, SomeService(front, source.reader, f));
      ServiceCites(before, last, source, f);
      CitingTwice(c, before, ServicesRead(c, services, source), f, source.path, SomeService(front, source.reader, f),
                  ServiceNames(last, source.reader, f));
      SplitLast(services);
      assert forall s :: s in services <==> s in front || s == last;
    }
  }

  ghost predicate SomeSubchart(subcharts: seq<Subchart>, f: ResourceFinding) {
    exists s :: s in subcharts && SubchartNames(s, f)
  }

  lemma SubchartCites(c: Collected, subchart: Subchart, path: string, f: ResourceFinding)
    requires Tidy(c.resources) && Plain(f)
    ensures Cites(c, WithResource(c, SubchartFinding(subchart), path), f, path, SubchartNames(subchart, f))
  {
    hide Tidy, Plain, Cites;
    if subchart.engine != "" {
      PlainLocal("", "", subchart);
      RecordingCites(c, SubchartFinding(subchart), path, f);
    } else {
      NothingCited(c, f, path);
    }
  }

  lemma {:induction false} ChartCites(c: Collected, subcharts: seq<Subchart>, path: string, f: ResourceFinding)
    requires Tidy(c.resources) && Plain(f)
    ensures Cites(c, ChartRead(c, subcharts, path), f, path, SomeSubchart(subcharts, f))
  {
    hide Tidy, Plain, SubchartFinding, Cites, SubchartNames, WithResource;
    NothingCited(c, f, path);
    if subcharts != [] {
      var front, last := subcharts[..|subcharts| - 1], subcharts[|subcharts| - 1];
      var before := ChartRead(c, front, path);
      ChartCites(c, front, path, f);
      CitedIsTidy(c, before, f, path, SomeSubchart(front, f));
      SubchartCites(before, last, path, f);
      CitingTwice(c, before, ChartRead(c, subcharts, path), f, path, SomeSubchart(front, f), SubchartNames(last, f));
      SplitLast(subcharts);
      assert forall s :: s in subcharts <==> s in front || s == last;
    }
  }

  lemma FileCites(w: Configuration, file: ConfigFile, source: Source, f: ResourceFinding)
    requires Tidy(w.found.resources) && Plain(f)
    ensures Cites(w.found, FileRead(w, file, source).found, f, source.path, FileNames(file, source.reader, f))
  {
    hide Tidy, Plain, ServicesRead, LinksRead, ChartRead, Scanned, EntryNames, ServiceNames, SubchartNames, AllDeclared, Engines, Cites;
    match file
    case Compose(services, isTest) =>
      var read := source.(fromTestFile := isTest);
      ServicesCite(w.found, services, read, f);
      LinksRecordNothing(w.(found := ServicesRead(w.found, services, read)), services, Engines(services), read);
      CollectedAlike(w.found, ServicesRead(w.found, services, read), FileRead(w, file, source).found, f, source.path,
                     SomeService(services, source.reader, f));
    case HelmChart(subcharts) => ChartCites(w.found, subcharts, source.path, f);
    case K8sManifest(serviceNames, ingressHosts, environment) => EnvironmentCites(w.found, environment, source, f);
    case Values(environment) => EnvironmentCites(w.found, environment, source, f);
  }

  /** The files that name the resource, in the order they are read. */
  ghost function NamedIn(input: Input<ConfigFile>, paths: seq<string>, reader: Reader, f: ResourceFinding): seq<string> {
    Filter(p => PathNames(input, p, reader, f), paths)
  }

  lemma PathCites(w: Configuration, input: Input<ConfigFile>, path: string, reader: Reader, f: ResourceFinding)
    requires Tidy(w.found.resources) && Plain(f)
    ensures Cites(w.found, PathRead(w, input, path, reader).found, f, path, PathNames(input, path, reader, f))
  {
    hide Tidy, Plain, FileRead, FileNames, Cites;
    if FileAt(input, path).Some? {
      FileCites(w, FileAt(input, path).value, Source(path, false, reader), f);
    } else {
      NothingCited(w.found, f, path);
    }
  }

  /** What is kept of a resource cites the files that name it: by `EvidenceIsTheFirstThree`, the first three of them. */
  lemma {:induction false} KeptResourceIsCited(input: Input<ConfigFile>, paths: seq<string>, reader: Reader,
                                               f: ResourceFinding)
    requires Plain(f)
    ensures Tidy(PathsRead(input, paths, reader).found.resources)
    ensures EvidenceAt(PathsRead(input, paths, reader).found.resources, KeyOf(f)) == RecordedPaths([], NamedIn(input, paths, reader, f))
  {
    hide PathRead, PathNames, Tidy, Plain, WithEvidence;
    if paths == [] {
      ReadingIsTidy(input, paths, reader);
    } else {
      var front, path := paths[..|paths| - 1], paths[|paths| - 1];
      KeptResourceIsCited(input, front, reader, f);
      PathCites(PathsRead(input, front, reader), input, path, reader, f);
    }
  }
}
