/** CI and test signals read off a repository's file listing. */
module Detect {
  import opened Wrappers
  import opened Text
  import opened Ordering

  datatype Result = Yes | No | Unknown

  datatype Reason = Matched | NoMatch | TreeTruncated | UnsupportedLanguage | NoListing

  datatype Detection = Detection(result: Result, evidence: seq<string>, ruleId: string, reason: Reason)

  const MAX_EVIDENCE := 3

  // ── CI ─────────────────────────────────────────────────────────────────────

  /** Configurations that count only at the repository root. */
  const EXACT_CI_PATHS := map[
    ".gitlab-ci.yml" := "ci.gitlab", ".gitlab-ci.yaml" := "ci.gitlab", ".travis.yml" := "ci.travis",
    "Jenkinsfile" := "ci.jenkins", "jenkinsfile" := "ci.jenkins", "azure-pipelines.yml" := "ci.azure",
    ".azure-pipelines.yml" := "ci.azure", "bitbucket-pipelines.yml" := "ci.bitbucket", "appveyor.yml" := "ci.appveyor",
    ".appveyor.yml" := "ci.appveyor", ".drone.yml" := "ci.drone", ".drone.star" := "ci.drone", ".cirrus.yml" := "ci.cirrus",
    "cloudbuild.yaml" := "ci.cloudbuild", "cloudbuild.yml" := "ci.cloudbuild", "buildspec.yml" := "ci.codebuild",
    "buildspec.yaml" := "ci.codebuild", "screwdriver.yaml" := "ci.screwdriver", "codefresh.yml" := "ci.codefresh",
    ".woodpecker.yml" := "ci.woodpecker", ".woodpecker.yaml" := "ci.woodpecker",
    ".semaphore/semaphore.yml" := "ci.semaphore", ".circleci/config.yml" := "ci.circleci", ".circleci/config.yaml" := "ci.circleci"
  ]

  /** Directories whose files imply CI. */
  const PREFIX_CI_PATHS := [
    (".github/workflows/", "ci.github_actions"), (".buildkite/", "ci.buildkite"), (".tekton/", "ci.tekton"),
    (".teamcity/", "ci.teamcity"), ("bamboo-specs/", "ci.bamboo"), (".harness/", "ci.harness"),
    (".woodpecker/", "ci.woodpecker"), ("azure-pipelines/", "ci.azure")
  ]

  type CiTable = (map<string, string>, seq<(string, string)>)

  const CI_TABLE: CiTable := (EXACT_CI_PATHS, PREFIX_CI_PATHS)

  function FirstPrefix(path: string, prefixes: seq<(string, string)>): Option<string> {
    if prefixes == [] then None
    else if HasPrefix(path, prefixes[0].0) then Some(prefixes[0].1)
    else FirstPrefix(path, prefixes[1..])
  }

  /** The CI system a path belongs to. */
  function CiRule(path: string, table: CiTable): Option<string> {
    if path in table.0 then Some(table.0[path]) else FirstPrefix(path, table.1)
  }

  function HasCiRule(table: CiTable): string -> bool {
    path => CiRule(path, table).Some?
  }

  /** What the listing says about CI: the first path that belongs to a CI system decides. */
  function CiDetection(paths: seq<string>, truncated: bool, table: CiTable): Detection {
    if paths == [] && !truncated then Detection(Unknown, [], "", NoListing)
    else
      var hits := Filter(HasCiRule(table), paths);
      if hits != [] then
        assert hits[0] in hits;
        Detection(Yes, [hits[0]], CiRule(hits[0], table).value, Matched)
      else if truncated then Detection(Unknown, [], "", TreeTruncated)
      else Detection(No, [], "", NoMatch)
  }

  method DetectCI(paths: seq<string>, truncated: bool, table: CiTable) returns (d: Detection)
    ensures d == CiDetection(paths, truncated, table)
  {
    if paths == [] && !truncated {
      return Detection(Unknown, [], "", NoListing);
    }
    for i := 0 to |paths|
      invariant Filter(HasCiRule(table), paths[..i]) == []
    {
      NextPath(HasCiRule(table), paths, i);
      if paths[i] in table.0 {
        return Detection(Yes, [paths[i]], table.0[paths[i]], Matched);
      }
      var system := FindPrefix(paths[i], table.1);
      if system.Some? {
        return Detection(Yes, [paths[i]], system.value, Matched);
      }
    }
    WholePrefix(paths);
    return if truncated then Detection(Unknown, [], "", TreeTruncated) else Detection(No, [], "", NoMatch);
  }

  method FindPrefix(path: string, prefixes: seq<(string, string)>) returns (system: Option<string>)
    ensures system == FirstPrefix(path, prefixes)
  {
    var k := 0;
    while k < |prefixes|
      invariant k <= |prefixes| && FirstPrefix(path, prefixes) == FirstPrefix(path, prefixes[k..])
    {
      if HasPrefix(path, prefixes[k].0) {
        return Some(prefixes[k].1);
      }
      k := k + 1;
    }
    return None;
  }

  /** The first path that matches is the first of all that match. */
  lemma NextPath(matches: string -> bool, paths: seq<string>, i: nat)
    requires i < |paths| && Filter(matches, paths[..i]) == []
    ensures matches(paths[i]) ==> Filter(matches, paths) != [] && Filter(matches, paths)[0] == paths[i]
    ensures !matches(paths[i]) ==> Filter(matches, paths[..i + 1]) == []
  {
    PrefixGrows(paths, i);
    FilterAppend(matches, paths[..i], [paths[i]]);
    assert paths[..i + 1] + paths[i + 1..] == paths;
    FilterAppend(matches, paths[..i + 1], paths[i + 1..]);
    assert [paths[i]][..0] == [];
  }

  // ── vendored trees ─────────────────────────────────────────────────────────

  const VENDORED_SEGMENTS := {
    "node_modules", "bower_components", "vendor", "vendors", "third_party", "thirdparty", "3rdparty", "externals", "Godeps",
    "dist", "deps", "Carthage", "Pods", ".yarn", "site-packages", ".venv", "venv", "env"
  }

  const TEST_DIRECTORIES := {"test", "tests", "spec", "specs"}

  /** Some segment of the path names a vendored directory, or two in a row name the fixtures of a test directory. */
  predicate IsVendored(path: string) {
    var segments := Split(path, '/');
    || (exists i :: 0 <= i < |segments| && segments[i] in VENDORED_SEGMENTS)
    || (exists i :: 0 <= i < |segments| - 1 && segments[i] in TEST_DIRECTORIES && segments[i + 1] == "fixtures")
  }

  // ── test rules ─────────────────────────────────────────────────────────────

  datatype Rule = Rule(id: string, matches: string -> bool)

  function Base(path: string): string {
    var segments := Split(path, '/');
    segments[|segments| - 1]
  }

  predicate HasAnySuffix(path: string, suffixes: seq<string>) {
    exists i :: 0 <= i < |suffixes| && HasSuffix(path, suffixes[i])
  }

  predicate ContainsAny(path: string, parts: seq<string>) {
    exists i :: 0 <= i < |parts| && Contains(path, parts[i])
  }

  predicate HasAnyPrefix(path: string, prefixes: seq<string>) {
    exists i :: 0 <= i < |prefixes| && HasPrefix(path, prefixes[i])
  }

  const JS_SUFFIXES := [
    ".test.js", ".spec.js", ".test.jsx", ".spec.jsx", ".test.ts", ".spec.ts", ".test.tsx", ".spec.tsx",
    ".test.mjs", ".spec.mjs", ".test.cjs", ".spec.cjs", ".test.mts", ".spec.mts", ".test.cts", ".spec.cts"
  ]

  const JS_CONFIGS := ["playwright.config.", "cypress.config.", "vitest.config.", "jest.config."]

  function JsRules(): seq<Rule> {
    [Rule("js.test_dir", p => "__tests__" in Split(p, '/')),
     Rule("js.test_suffix", p => HasAnySuffix(p, JS_SUFFIXES)),
     Rule("js.e2e_config", p => HasAnyPrefix(Base(p), JS_CONFIGS))]
  }

  function JavaRules(): seq<Rule> {
    [Rule("java.maven_test_tree",
          p => ContainsAny(p, ["src/test/java/", "src/test/kotlin/", "src/test/groovy/", "src/androidTest/"])),
     Rule("java.test_class", p => HasAnySuffix(p, ["Test.java", "Tests.java", "IT.java", "Test.kt", "Tests.kt"]))]
  }

  function PythonRules(): seq<Rule> {
    [Rule("python.test_prefix", p => HasPrefix(Base(p), "test_") && HasSuffix(Base(p), ".py")),
     Rule("python.test_suffix", p => HasSuffix(p, "_test.py")),
     Rule("python.conftest", p => Base(p) == "conftest.py")]
  }

  /** The test rules of a language, by its lower-case name. */
  function TestRules(language: string): seq<Rule> {
    match language
    case "go" => [Rule("go.test_suffix", p => HasSuffix(p, "_test.go"))]
    case "javascript" => JsRules()
    case "typescript" => JsRules()
    case "python" => PythonRules()
    case "java" => JavaRules()
    case "kotlin" => JavaRules()
    case "ruby" => [Rule("ruby.rspec", p => HasSuffix(p, "_spec.rb")), Rule("ruby.minitest", p => HasSuffix(p, "_test.rb"))]
    case "php" => [Rule("php.phpunit", p => HasSuffix(p, "Test.php"))]
    case _ => []
  }

  /** The languages of which a listing without tests proves that there are none. */
  const CONFIDENT_LANGUAGES := {"go", "javascript", "typescript", "java", "kotlin", "ruby", "php", "python"}

  /** What detection knows about languages; the rules and trust of the program are the default. */
  datatype Knowledge = Knowledge(rules: string -> seq<Rule>, confident: set<string>)

  const KNOWLEDGE := Knowledge(TestRules, CONFIDENT_LANGUAGES)

  // ── tests ──────────────────────────────────────────────────────────────────

  /** The first of the rules that matches. */
  function FirstRule(path: string, rules: seq<Rule>): Option<string> {
    if rules == [] then None
    else if rules[0].matches(path) then Some(rules[0].id)
    else FirstRule(path, rules[1..])
  }

  function ActiveRules(languages: seq<string>, known: Knowledge): seq<Rule> {
    if languages == [] then [] else ActiveRules(languages[..|languages| - 1], known) + known.rules(languages[|languages| - 1])
  }

  predicate IsTest(path: string, rules: seq<Rule>) {
    !IsVendored(path) && FirstRule(path, rules).Some?
  }

  function IsTestBy(rules: seq<Rule>): string -> bool {
    path => IsTest(path, rules)
  }

  /** The test files of a listing, in its order. */
  function Hits(paths: seq<string>, rules: seq<Rule>): seq<string> {
    Filter(IsTestBy(rules), paths)
  }

  function Capped(list: seq<string>): seq<string> {
    list[..if |list| < MAX_EVIDENCE then |list| else MAX_EVIDENCE]
  }

  /** What the listing says about tests, for these sorted lower-case languages. */
  function TestDetection(paths: seq<string>, languages: seq<string>, truncated: bool, known: Knowledge): Detection {
    var rules := ActiveRules(languages, known);
    var hits := Hits(paths, rules);
    if paths == [] && !truncated then Detection(Unknown, [], "", NoListing)
    else if hits != [] then
      assert hits[0] in hits;
      Detection(Yes, Capped(hits), FirstRule(hits[0], rules).value, Matched)
    else if truncated then Detection(Unknown, [], "", TreeTruncated)
    else if forall i :: 0 <= i < |languages| ==> languages[i] !in known.confident then Detection(Unknown, [], "", UnsupportedLanguage)
    else Detection(No, [], "", NoMatch)
  }

  ghost predicate Names(name: string, languages: set<string>) {
    exists x :: x in languages && ToLower(x) == name
  }

  /** The names in `list`, sorted, are the lower-case names of the languages. */
  ghost predicate NamesLanguages(list: seq<string>, languages: set<string>) {
    Sorted(list, Before) && forall l :: l in list <==> Names(l, languages)
  }

  /** The sorted lower-case names, in whatever order the map is walked. */
  method LanguageKeys(languages: set<string>) returns (list: seq<string>)
    ensures NamesLanguages(list, languages)
  {
    var remaining := languages;
    ghost var done: set<string> := {};
    list := [];
    while remaining != {}
      invariant done + remaining == languages && done !! remaining
      invariant forall l :: l in list <==> Names(l, done)
      decreases |remaining|
    {
      var x :| x in remaining;
      assert forall l :: Names(l, done + {x}) <==> Names(l, done) || l == ToLower(x);
      list := list + [ToLower(x)];
      remaining, done := remaining - {x}, done + {x};
    }
    assert done == languages;
    BeforeIsWeakOrder();
    SortSorts(list, Before);
    list := Sort(list, Before);
  }

  /** The rule loop for one path. */
  method MatchRule(path: string, rules: seq<Rule>) returns (id: Option<string>)
    ensures id == FirstRule(path, rules)
  {
    var k := 0;
    while k < |rules|
      invariant k <= |rules| && FirstRule(path, rules) == FirstRule(path, rules[k..])
    {
      if rules[k].matches(path) {
        return Some(rules[k].id);
      }
      k := k + 1;
    }
    return None;
  }

  method DetectTests(paths: seq<string>, languages: set<string>, truncated: bool, known: Knowledge)
    returns (d: Detection)
    ensures Answers(d, paths, languages, truncated, known)
  {
    var langKeys := LanguageKeys(languages);
    d := DetectTestsOf(paths, langKeys, truncated, known);
  }

  /**
   * `d` is what the listing says, for the languages named in some sorted list; case-folded duplicates may repeat in
   * it.
   */
  ghost predicate Answers(d: Detection, paths: seq<string>, languages: set<string>, truncated: bool, known: Knowledge) {
    exists keys :: NamesLanguages(keys, languages) && d == TestDetection(paths, keys, truncated, known)
  }

  method DetectTestsOf(paths: seq<string>, langKeys: seq<string>, truncated: bool, known: Knowledge)
    returns (d: Detection)
    ensures d == TestDetection(paths, langKeys, truncated, known)
  {
    if paths == [] && !truncated {
      return Detection(Unknown, [], "", NoListing);
    }
    var active: seq<Rule> := [];
    var anyConfident := false;
    for i := 0 to |langKeys|
      invariant active == ActiveRules(langKeys[..i], known)
      invariant anyConfident <==> exists k :: 0 <= k < i && langKeys[k] in known.confident
    {
      assert langKeys[..i + 1][..i] == langKeys[..i];
      active := active + known.rules(langKeys[i]);
      if langKeys[i] in known.confident {
        anyConfident := true;
      }
    }
    assert langKeys[..|langKeys|] == langKeys;

    var evidence, ruleId := CollectEvidence(paths, active);
    if evidence != [] {
      return Detection(Yes, evidence, ruleId, Matched);
    }
    if truncated {
      return Detection(Unknown, [], "", TreeTruncated);
    }
    if !anyConfident {
      return Detection(Unknown, [], "", UnsupportedLanguage);
    }
    return Detection(No, [], "", NoMatch);
  }

  /** The listing loop: stops at the third piece of evidence. */
  method CollectEvidence(paths: seq<string>, rules: seq<Rule>) returns (evidence: seq<string>, ruleId: string)
    ensures evidence == Capped(Hits(paths, rules))
    ensures evidence != [] ==> FirstRule(evidence[0], rules) == Some(ruleId)
  {
    evidence, ruleId := [], "";
    var n := 0;
    while n < |paths| && |evidence| < MAX_EVIDENCE
      invariant n <= |paths|
      invariant evidence == Hits(paths[..n], rules) && |evidence| <= MAX_EVIDENCE
      invariant evidence != [] ==> FirstRule(evidence[0], rules) == Some(ruleId)
    {
      HitsStep(paths, rules, n);
      if !IsVendored(paths[n]) {
        var rule := MatchRule(paths[n], rules);
        if rule.Some? {
          if evidence == [] {
            ruleId := rule.value;
          }
          evidence := evidence + [paths[n]];
        }
      }
      n := n + 1;
    }
    HitsSplit(paths, rules, n);
  }

  lemma HitsStep(paths: seq<string>, rules: seq<Rule>, n: nat)
    requires n < |paths|
    ensures Hits(paths[..n + 1], rules) == Hits(paths[..n], rules) + if IsTest(paths[n], rules) then [paths[n]] else []
  {
    assert paths[..n + 1][..n] == paths[..n];
  }

  lemma HitsSplit(paths: seq<string>, rules: seq<Rule>, n: nat)
    requires n <= |paths|
    ensures Hits(paths, rules) == Hits(paths[..n], rules) + Hits(paths[n..], rules)
    ensures n == |paths| ==> Hits(paths[n..], rules) == []
  {
    assert paths[..n] + paths[n..] == paths;
    FilterAppend(IsTestBy(rules), paths[..n], paths[n..]);
  }
}
