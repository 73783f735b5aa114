/** Detection is exact, and never says no too early. */
module DetectProperties {
  import opened Wrappers
  import opened Text
  import opened Detect

  // ── CI ─────────────────────────────────────────────────────────────────────

  /**
   * CI is a yes exactly when some path belongs to a CI system, and a no exactly when a complete, non-empty listing
   * has none.
   */
  lemma CiExactly(paths: seq<string>, truncated: bool, table: CiTable)
    ensures CiDetection(paths, truncated, table).result == Yes <==> exists p :: p in paths && CiRule(p, table).Some?
    ensures CiDetection(paths, truncated, table).result == No
            <==> paths != [] && !truncated && forall p :: p in paths ==> CiRule(p, table).None?
  {
    var hits := Filter(HasCiRule(table), paths);
    if hits != [] {
      assert hits[0] in hits;
    }
  }

  /** The evidence is the first path that belongs to a CI system. */
  lemma CiEvidenceIsFirst(paths: seq<string>, truncated: bool, table: CiTable, n: nat)
    requires n < |paths| && CiRule(paths[n], table).Some?
    requires forall i :: 0 <= i < n ==> CiRule(paths[i], table).None?
    ensures CiDetection(paths, truncated, table) == Detection(Yes, [paths[n]], CiRule(paths[n], table).value, Matched)
  {
    hide CiRule;
    var test := HasCiRule(table);
    FilterNone(test, paths[..n]);
    NextPath(test, paths, n);
  }

  /** A yes stays exactly the same answer however the listing is extended, truncated or not. */
  lemma CiYesSurvivesExtension(paths: seq<string>, truncated: bool, more: seq<string>, later: bool, table: CiTable)
    requires CiDetection(paths, truncated, table).result == Yes
    ensures CiDetection(paths + more, later, table) == CiDetection(paths, truncated, table)
  {
    FilterAppend(HasCiRule(table), paths, more);
  }

  // ── tests ──────────────────────────────────────────────────────────────────

  ghost predicate SomeMatches(path: string, rules: seq<Rule>) {
    exists i :: 0 <= i < |rules| && rules[i].matches(path)
  }

  lemma {:induction false} SomeRuleMatchesIff(path: string, rules: seq<Rule>)
    ensures FirstRule(path, rules).Some? <==> SomeMatches(path, rules)
  {
    if rules != [] {
      SomeRuleMatchesIff(path, rules[1..]);
      if i :| 0 <= i < |rules| && rules[i].matches(path) {
        assert i > 0 ==> rules[1..][i - 1].matches(path);
      }
    }
  }

  lemma MatchesEither(path: string, a: seq<Rule>, b: seq<Rule>)
    ensures SomeMatches(path, a + b) <==> SomeMatches(path, a) || SomeMatches(path, b)
  {
    if i :| 0 <= i < |a + b| && (a + b)[i].matches(path) {
      assert if i < |a| then a[i].matches(path) else b[i - |a|].matches(path);
    }
    if i :| 0 <= i < |a| && a[i].matches(path) {
      assert (a + b)[i].matches(path);
    }
    if i :| 0 <= i < |b| && b[i].matches(path) {
      assert (a + b)[|a| + i].matches(path);
    }
  }

  ghost predicate RuleOfLanguages(path: string, languages: seq<string>, known: Knowledge) {
    exists l :: l in languages && SomeMatches(path, known.rules(l))
  }

  lemma {:induction false} ActiveRulesAreTheLanguages(path: string, languages: seq<string>, known: Knowledge)
    ensures SomeMatches(path, ActiveRules(languages, known)) <==> RuleOfLanguages(path, languages, known)
  {
    if languages != [] {
      var front, last := languages[..|languages| - 1], languages[|languages| - 1];
      ActiveRulesAreTheLanguages(path, front, known);
      MatchesEither(path, ActiveRules(front, known), known.rules(last));
      assert languages == front + [last];
    }
  }

  /** Some language of the repository has a rule for the path, which is not vendored. */
  ghost predicate Proves(path: string, languages: set<string>, known: Knowledge) {
    !IsVendored(path) && exists x :: x in languages && SomeMatches(path, known.rules(ToLower(x)))
  }

  lemma TestFilesAreTheProofs(path: string, keys: seq<string>, languages: set<string>, known: Knowledge)
    requires NamesLanguages(keys, languages)
    ensures IsTest(path, ActiveRules(keys, known)) <==> Proves(path, languages, known)
  {
    SomeRuleMatchesIff(path, ActiveRules(keys, known));
    ActiveRulesAreTheLanguages(path, keys, known);
    if l :| l in keys && SomeMatches(path, known.rules(l)) {
      assert Names(l, languages);
    }
    if x :| x in languages && SomeMatches(path, known.rules(ToLower(x))) {
      assert Names(ToLower(x), languages);
    }
  }

  /**
   * The answer is yes exactly when some non-vendored path matches a rule of a language present, and no exactly
   * when a non-empty, complete listing has no such path although a trusted language is present.
   */
  lemma TestsExactly(paths: seq<string>, keys: seq<string>, languages: set<string>, truncated: bool, known: Knowledge)
    requires NamesLanguages(keys, languages)
    ensures TestDetection(paths, keys, truncated, known).result == Yes
            <==> exists p :: p in paths && Proves(p, languages, known)
    ensures TestDetection(paths, keys, truncated, known).result == No
            <==> && paths != [] && !truncated
                 && (exists x :: x in languages && ToLower(x) in known.confident)
                 && forall p :: p in paths ==> !Proves(p, languages, known)
  {
    var rules := ActiveRules(keys, known);
    var hits := Hits(paths, rules);
    forall p | p in paths
      ensures IsTest(p, rules) <==> Proves(p, languages, known)
    {
      TestFilesAreTheProofs(p, keys, languages, known);
    }
    if hits != [] {
      assert hits[0] in hits;
    }
    assert (exists i :: 0 <= i < |keys| && keys[i] in known.confident) <==> exists x :: x in languages && ToLower(x) in known.confident by {
      if i :| 0 <= i < |keys| && keys[i] in known.confident {
        assert Names(keys[i], languages);
      }
      if x :| x in languages && ToLower(x) in known.confident {
        assert Names(ToLower(x), languages);
        var i :| 0 <= i < |keys| && keys[i] == ToLower(x);
      }
    }
  }

  /** A yes names the first up to three such paths in listing order. */
  lemma TestEvidenceIsTheFirstThree(paths: seq<string>, keys: seq<string>, languages: set<string>, truncated: bool,
                                    known: Knowledge)
    requires NamesLanguages(keys, languages)
    requires TestDetection(paths, keys, truncated, known).result == Yes
    ensures TestDetection(paths, keys, truncated, known).evidence == Capped(Hits(paths, ActiveRules(keys, known)))
    ensures forall p :: p in Hits(paths, ActiveRules(keys, known)) <==> p in paths && Proves(p, languages, known)
  {
    forall p
      ensures p in Hits(paths, ActiveRules(keys, known)) <==> p in paths && Proves(p, languages, known)
    {
      TestFilesAreTheProofs(p, keys, languages, known);
    }
  }

  /**
   * However the listing is extended, truncated or not, a yes stays a yes by the same rule and keeps its evidence
   * first.
   */
  lemma TestYesSurvivesExtension(paths: seq<string>, truncated: bool, more: seq<string>, later: bool,
                                 keys: seq<string>, known: Knowledge)
    requires TestDetection(paths, keys, truncated, known).result == Yes
    ensures var before, after := TestDetection(paths, keys, truncated, known), TestDetection(paths + more, keys, later, known);
            after.result == Yes && after.ruleId == before.ruleId && before.evidence <= after.evidence
  {
    FilterAppend(IsTestBy(ActiveRules(keys, known)), paths, more);
  }

  /**
   * The same, of whatever the method answers: the verdict depends on the set of languages alone, not on how it is
   * walked.
   */
  lemma AnswersExactly(d: Detection, paths: seq<string>, languages: set<string>, truncated: bool, known: Knowledge)
    requires Answers(d, paths, languages, truncated, known)
    ensures d.result == Yes <==> exists p :: p in paths && Proves(p, languages, known)
    ensures d.result == No
            <==> && paths != [] && !truncated
                 && (exists x :: x in languages && ToLower(x) in known.confident)
                 && forall p :: p in paths ==> !Proves(p, languages, known)
    ensures d.result == Yes ==> forall p :: p in d.evidence ==> p in paths && Proves(p, languages, known)
  {
    var keys :| NamesLanguages(keys, languages) && d == TestDetection(paths, keys, truncated, known);
    TestsExactly(paths, keys, languages, truncated, known);
    if d.result == Yes {
      TestEvidenceIsTheFirstThree(paths, keys, languages, truncated, known);
    }
  }

  // ── the program's own tables ───────────────────────────────────────────────

  /** The languages whose absence of tests is trusted are exactly the ones that have rules. */
  lemma TrustedLanguagesHaveRules(language: string)
    ensures language in KNOWLEDGE.confident <==> KNOWLEDGE.rules(language) != []
  {
    hide JsRules, JavaRules, PythonRules;
    RulesPerLanguage();
    if language in CONFIDENT_LANGUAGES {
      assert TestRules(language) != [];
    } else {
      assert TestRules(language) == [];
    }
  }

  lemma RulesPerLanguage()
    ensures JsRules() != [] && JavaRules() != [] && PythonRules() != []
  {
  }

  /**
   * With the program's rules, nothing is left open for lack of a supported language unless no language present has
   * any rule: a complete, non-empty listing is answered as soon as one rule could have matched.
   */
  lemma ProgramLeavesOpenIff(d: Detection, paths: seq<string>, languages: set<string>, truncated: bool)
    requires Answers(d, paths, languages, truncated, KNOWLEDGE)
    ensures d.result == Unknown
            <==> && (forall p :: p in paths ==> !Proves(p, languages, KNOWLEDGE))
                 && (paths == [] || truncated || forall x :: x in languages ==> TestRules(ToLower(x)) == [])
  {
    hide TestRules, ToLower;
    AnswersExactly(d, paths, languages, truncated, KNOWLEDGE);
    forall x | x in languages
      ensures ToLower(x) in KNOWLEDGE.confident <==> TestRules(ToLower(x)) != []
    {
      TrustedLanguagesHaveRules(ToLower(x));
    }
  }

  /** No path is under two of the program's CI directories. */
  lemma OnePrefixAtMost(path: string, i: nat, j: nat)
    requires i < |PREFIX_CI_PATHS| && j < |PREFIX_CI_PATHS|
    requires HasPrefix(path, PREFIX_CI_PATHS[i].0) && HasPrefix(path, PREFIX_CI_PATHS[j].0)
    ensures i == j
  {
    var a, b := PREFIX_CI_PATHS[i].0, PREFIX_CI_PATHS[j].0;
    assert a[1] == path[1] == b[1] && a[3] == path[3] == b[3];
  }

  lemma {:induction false} PrefixFound(path: string, prefixes: seq<(string, string)>, i: nat)
    requires i < |prefixes| && HasPrefix(path, prefixes[i].0)
    requires forall j :: 0 <= j < i ==> !HasPrefix(path, prefixes[j].0)
    ensures FirstPrefix(path, prefixes) == Some(prefixes[i].1)
  {
    if i > 0 {
      assert prefixes[1..][i - 1] == prefixes[i];
      PrefixFound(path, prefixes[1..], i - 1);
    }
  }

  /** So the order of the directory table never matters: a path under one of them gets that one's system. */
  lemma DirectoryDecides(path: string, i: nat)
    requires i < |PREFIX_CI_PATHS| && HasPrefix(path, PREFIX_CI_PATHS[i].0)
    requires path !in EXACT_CI_PATHS
    ensures CiRule(path, CI_TABLE) == Some(PREFIX_CI_PATHS[i].1)
  {
    forall j | 0 <= j < i
      ensures !HasPrefix(path, PREFIX_CI_PATHS[j].0)
    {
      if HasPrefix(path, PREFIX_CI_PATHS[j].0) {
        OnePrefixAtMost(path, i, j);
      }
    }
    PrefixFound(path, PREFIX_CI_PATHS, i);
  }
}
