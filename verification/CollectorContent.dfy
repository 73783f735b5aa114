/** What is kept of a host or a resource that several files name. */
module CollectorContent {
  import opened Wrappers
  import opened Text
  import opened TextProperties
  import opened Hosts
  import opened HostNames
  import opened Collector
  import opened CollectorProperties

  // ── hosts seen again ───────────────────────────────────────────────────────

  function ConsumeAll(sightings: seq<HostFinding>): map<(string, string), HostFinding> {
    if sightings == [] then map[]
    else Consuming(ConsumeAll(sightings[..|sightings| - 1]), sightings[|sightings| - 1])
  }

  /** The sightings of a host under a variable. */
  ghost function SightingsOf(sightings: seq<HostFinding>, host: string, envVar: string): seq<HostFinding> {
    Filter((f: HostFinding) => Normal(f.host) == host && f.envVar == envVar, sightings)
  }

  /** The last sighting outside test files; when there is none, the first of all. */
  ghost predicate LastOutsideTests(sightings: seq<HostFinding>, p: nat) {
    && p < |sightings| && (forall j :: p < j < |sightings| ==> sightings[j].fromTestFile)
    && (sightings[p].fromTestFile ==> p == 0)
  }

  ghost predicate StrongestOf(sightings: seq<HostFinding>, m: nat) {
    && m < |sightings| && (forall j :: 0 <= j < |sightings| ==> sightings[j].confidence <= sightings[m].confidence)
    && (forall j :: 0 <= j < m ==> sightings[j].confidence < sightings[m].confidence)
  }

  ghost predicate Sums(x: HostFinding, sightings: seq<HostFinding>) {
    && sightings != []
    && (x.fromTestFile <==> forall i :: 0 <= i < |sightings| ==> sightings[i].fromTestFile)
    && (exists p: nat :: LastOutsideTests(sightings, p) && x.evidencePath == sightings[p].evidencePath)
    && (exists m: nat :: StrongestOf(sightings, m) && x.confidence == sightings[m].confidence && x.ruleId == sightings[m].ruleId)
  }

  lemma FirstSighting(f: HostFinding)
    ensures Sums(f.(host := Normal(f.host)), [f])
  {
    assert LastOutsideTests([f], 0) && StrongestOf([f], 0);
  }

  lemma PathAfter(x: HostFinding, sightings: seq<HostFinding>, f: HostFinding)
    requires Sums(x, sightings)
    ensures exists p: nat :: LastOutsideTests(sightings + [f], p) && Seen(x, f).evidencePath == (sightings + [f])[p].evidencePath
  {
    var p: nat :| LastOutsideTests(sightings, p) && x.evidencePath == sightings[p].evidencePath;
    assert LastOutsideTests(sightings + [f], if f.fromTestFile then p else |sightings|);
  }

  lemma StrengthAfter(x: HostFinding, sightings: seq<HostFinding>, f: HostFinding)
    requires Sums(x, sightings)
    ensures exists m: nat :: && StrongestOf(sightings + [f], m) && Seen(x, f).confidence == (sightings + [f])[m].confidence
                        && Seen(x, f).ruleId == (sightings + [f])[m].ruleId
  {
    var m: nat :| StrongestOf(sightings, m) && x.confidence == sightings[m].confidence && x.ruleId == sightings[m].ruleId;
    assert StrongestOf(sightings + [f], if f.confidence > x.confidence then |sightings| else m);
  }

  lemma SeenAgain(x: HostFinding, sightings: seq<HostFinding>, f: HostFinding)
    requires Sums(x, sightings)
    ensures Sums(Seen(x, f), sightings + [f])
    ensures Seen(x, f).host == x.host && Seen(x, f).envVar == x.envVar
  {
    hide LastOutsideTests, StrongestOf;
    PathAfter(x, sightings, f);
    StrengthAfter(x, sightings, f);
    var all := sightings + [f];
    assert (forall i :: 0 <= i < |all| ==> all[i].fromTestFile) <==> Seen(x, f).fromTestFile by {
      assert forall i :: 0 <= i < |sightings| ==> all[i] == sightings[i];
      assert all[|sightings|] == f;
    }
  }

  /**
   * A host is kept under a variable exactly when something names it there and it is no placeholder. What is kept has
   * the path of its last sighting outside test files, counts as a test file's only if no sighting is outside them, and
   * has the greatest confidence with the rule that first gave it.
   */
  lemma {:induction false} KeptHostSums(sightings: seq<HostFinding>, host: string, envVar: string)
    ensures var kept, mine := ConsumeAll(sightings), SightingsOf(sightings, host, envVar);
            && ((host, envVar) in kept <==> mine != [] && host != "" && !IsPlaceholderHost(host))
            && ((host, envVar) in kept ==>
                  kept[(host, envVar)].host == host && kept[(host, envVar)].envVar == envVar && Sums(kept[(host, envVar)], mine))
  {
    if sightings != [] {
      hide Sums, Seen, Normal, IsPlaceholderHost;
      var front, last := sightings[..|sightings| - 1], sightings[|sightings| - 1];
      KeptHostSums(front, host, envVar);
      var mine := SightingsOf(front, host, envVar);
      if Normal(last.host) == host && last.envVar == envVar && host != "" && !IsPlaceholderHost(host) {
        var finding := last.(host := host);
        if mine == [] {
          FirstSighting(last);
          assert mine + [last] == [last];
        } else {
          SeenAgain(ConsumeAll(front)[(host, envVar)], mine, last);
          SeenReadsNoName(ConsumeAll(front)[(host, envVar)], last);
        }
      }
    }
  }

  lemma SeenReadsNoName(x: HostFinding, f: HostFinding)
    ensures Seen(x, f.(host := Normal(f.host))) == Seen(x, f)
  {
  }

  // ── resources found again ──────────────────────────────────────────────────

  /** The findings recorded under a key, with the paths they were found at. */
  ghost function FindingsOf(findings: seq<(ResourceFinding, string)>, key: ResourceKey): seq<(ResourceFinding, string)> {
    Filter((f: (ResourceFinding, string)) => f.0.locator.engine != "" && KeyOf(f.0) == key, findings)
  }

  function PathsOf(findings: seq<(ResourceFinding, string)>): seq<string> {
    seq(|findings|, i requires 0 <= i < |findings| => findings[i].1)
  }

  ghost predicate StrongestFinding(findings: seq<(ResourceFinding, string)>, m: nat) {
    && m < |findings| && (forall j :: 0 <= j < |findings| ==> findings[j].0.confidence <= findings[m].0.confidence)
    && (forall j :: 0 <= j < m ==> findings[j].0.confidence < findings[m].0.confidence)
  }

  ghost predicate SumsFindings(x: ResourceFinding, findings: seq<(ResourceFinding, string)>) {
    && findings != [] && x.locator == findings[0].0.locator && x.displayName == findings[0].0.displayName
    && x.scoped == findings[0].0.scoped && x.evidence == RecordedPaths([], PathsOf(findings))
    && exists m: nat :: StrongestFinding(findings, m) && x.confidence == findings[m].0.confidence && x.ruleId == findings[m].0.ruleId
  }

  lemma OneMorePath(findings: seq<(ResourceFinding, string)>, f: (ResourceFinding, string))
    ensures RecordedPaths([], PathsOf(findings + [f])) == WithEvidence(RecordedPaths([], PathsOf(findings)), f.1)
  {
    assert PathsOf(findings + [f]) == PathsOf(findings) + [f.1];
    assert (PathsOf(findings) + [f.1])[..|findings|] == PathsOf(findings);
  }

  lemma FirstFinding(f: (ResourceFinding, string))
    ensures SumsFindings(f.0.(evidence := WithEvidence([], f.1)), [f])
  {
    OneMorePath([], f);
    assert [] + [f] == [f];
    assert StrongestFinding([f], 0);
  }

  lemma FoundAgain(x: ResourceFinding, findings: seq<(ResourceFinding, string)>, f: (ResourceFinding, string))
    requires SumsFindings(x, findings) && x.scoped == f.0.scoped
    ensures SumsFindings(Agreed(x, f.0, f.1), findings + [f])
  {
    OneMorePath(findings, f);
    var m: nat :| StrongestFinding(findings, m) && x.confidence == findings[m].0.confidence && x.ruleId == findings[m].0.ruleId;
    assert StrongestFinding(findings + [f], if f.0.confidence > x.confidence then |findings| else m);
  }

  /**
   * A resource is kept under a key exactly when some finding with an engine has that key. What is kept is the first
   * of them, with the greatest confidence, the rule that first gave it, and the paths of all of them: the first three
   * distinct ones, by `EvidenceIsTheFirstThree`.
   */
  lemma {:induction false} KeptResourceSums(findings: seq<(ResourceFinding, string)>, key: ResourceKey)
    ensures var kept, mine := RecordAll(findings), FindingsOf(findings, key);
            && (key in kept <==> mine != [])
            && (key in kept ==> KeyOf(kept[key]) == key && SumsFindings(kept[key], mine))
  {
    if findings != [] {
      hide SumsFindings, Agreed, WithEvidence;
      var front, last := findings[..|findings| - 1], findings[|findings| - 1];
      KeptResourceSums(front, key);
      var mine := FindingsOf(front, key);
      if last.0.locator.engine != "" && KeyOf(last.0) == key {
        if mine == [] {
          FirstFinding(last);
          assert mine + [last] == [last];
        } else {
          FoundAgain(RecordAll(front)[key], mine, last);
          AgreedKeepsKey(RecordAll(front)[key], last.0, last.1);
        }
      }
    }
  }

  lemma AgreedKeepsKey(x: ResourceFinding, finding: ResourceFinding, path: string)
    requires KeyOf(x) == KeyOf(finding)
    ensures KeyOf(Agreed(x, finding, path)) == KeyOf(x)
  {
  }

  // ── what is looked at ──────────────────────────────────────────────────────

  /** A variable is read as a connection exactly when a marker stands somewhere in its name, in any letter case. */
  lemma ConnectionKeyIff(name: string)
    ensures LooksLikeConnectionKey(name)
            <==> exists marker, i: nat :: marker in CONNECTION_MARKERS && StandsAt(ToUpper(name), marker, i)
  {
    forall marker
      ensures Contains(ToUpper(name), marker) <==> exists i: nat :: StandsAt(ToUpper(name), marker, i)
    {
      ContainsIff(ToUpper(name), marker);
    }
    if marker, i: nat :| marker in CONNECTION_MARKERS && StandsAt(ToUpper(name), marker, i) {
      var k :| 0 <= k < |CONNECTION_MARKERS| && CONNECTION_MARKERS[k] == marker;
    }
  }

  /** A host is a placeholder in any letter case or in none, and so is any that holds a template's character. */
  lemma PlaceholdersAreRecognised(host: string, other: string, before: string, c: char, after: string)
    ensures ToLower(host) == ToLower(other) ==> IsPlaceholderHost(host) == IsPlaceholderHost(other)
    ensures host in PLACEHOLDER_HOSTS ==> IsPlaceholderHost(ToUpper(host))
    ensures c in "${}<>" ==> IsPlaceholderHost(before + [c] + after)
  {
    hide Normal;
    if ToLower(host) == ToLower(other) {
      NormalHasNoCase(host, other);
    }
    if c in "${}<>" {
      TemplateStays(before, c, after);
    }
    if host in PLACEHOLDER_HOSTS {
      KnownNamesAreNormal(host);
      CaseFolds(host);
      NormalHasNoCase(ToUpper(host), host);
    }
  }

  lemma KnownNamesAreTight(host: string)
    requires host in PLACEHOLDER_HOSTS
    ensures Tight(host)
  {
  }

  lemma KnownNamesAreLower(host: string)
    requires host in PLACEHOLDER_HOSTS
    ensures forall i :: 0 <= i < |host| ==> LowerChar(host[i]) == host[i]
  {
  }

  lemma KnownNamesAreNormal(host: string)
    requires host in PLACEHOLDER_HOSTS
    ensures Normal(host) == host
  {
    hide Tight, LowerChar;
    KnownNamesAreTight(host);
    KnownNamesAreLower(host);
    TightIsTrimmed(host);
  }

  lemma TemplateStays(before: string, c: char, after: string)
    requires c in "${}<>"
    ensures exists i :: 0 <= i < |Normal(before + [c] + after)| && Normal(before + [c] + after)[i] in "${}<>"
  {
    var host := before + [c] + after;
    var i, j := TrimSpaceExactly(host);
    assert host[|before|] == c && !IsSpace(c) && LowerChar(c) == c;
    assert forall k :: 0 <= k < i ==> IsSpace(host[k]) by {
      assert forall k :: 0 <= k < i ==> host[..i][k] == host[k];
    }
    assert forall k :: j <= k < |host| ==> IsSpace(host[k]) by {
      assert forall k :: j <= k < |host| ==> host[j..][k - j] == host[k];
    }
    assert Normal(host)[|before| - i] == c;
  }

  /**
   * Two connection strings tie in the listing exactly when they agree on engine and host, and on a host's namespace.
   */
  lemma TiesIff(a: Locator, b: Locator)
    requires '/' !in a.host && '/' !in b.host
    ensures LabelOf(DsnFinding(a)) == LabelOf(DsnFinding(b))
       <==> a.engine == b.engine && a.host == b.host && (a.host != "" ==> a.namespace == b.namespace)
  {
    if a.engine == b.engine && a.DisplayName() == b.DisplayName() {
      var start := |a.engine| + 3;
      Tail(a);
      Tail(b);
      if a.host != "" {
        assert b.host != "";
        IndexAt(a.host, '/', Below(a.namespace));
        IndexAt(b.host, '/', Below(b.namespace));
        assert a.host == a.DisplayName()[start..][..|a.host|] && b.host == b.DisplayName()[start..][..|b.host|];
        assert Below(a.namespace) == a.DisplayName()[start..][|a.host|..];
        assert Below(b.namespace) == b.DisplayName()[start..][|b.host|..];
        assert a.namespace != "" ==> Below(a.namespace)[1..] == a.namespace;
        assert b.namespace != "" ==> Below(b.namespace)[1..] == b.namespace;
      }
    }
  }

  function Below(namespace: string): string {
    if namespace == "" then "" else "/" + namespace
  }

  lemma Tail(l: Locator)
    ensures l.host == "" ==> l.DisplayName() == l.engine
    ensures l.host != "" ==> |l.DisplayName()| > |l.engine| + 3 && l.DisplayName()[|l.engine| + 3..] == l.host + Below(l.namespace)
  {
  }
}
