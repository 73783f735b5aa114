/** Which path a detection names, by which rule, and which paths are left out as vendored. */
module DetectEvidence {
  import opened Wrappers
  import opened Text
  import opened TextProperties
  import opened PathSegments
  import opened Ordering
  import opened Detect
  import opened DetectProperties

  // ── CI ─────────────────────────────────────────────────────────────────────

  lemma {:induction false} NoPrefixIff(path: string, prefixes: seq<(string, string)>)
    ensures FirstPrefix(path, prefixes).None? <==> forall i :: 0 <= i < |prefixes| ==> !HasPrefix(path, prefixes[i].0)
  {
    if prefixes != [] {
      NoPrefixIff(path, prefixes[1..]);
      assert forall i :: 0 < i < |prefixes| ==> prefixes[1..][i - 1] == prefixes[i];
    }
  }

  /** The path is one of the exact names of the system, or none of them and in one of its directories. */
  ghost predicate BelongsTo(path: string, system: string) {
    if path in EXACT_CI_PATHS then EXACT_CI_PATHS[path] == system
    else exists i :: 0 <= i < |PREFIX_CI_PATHS| && HasPrefix(path, PREFIX_CI_PATHS[i].0) && PREFIX_CI_PATHS[i].1 == system
  }

  lemma CiSystemIff(path: string, system: string)
    ensures CiRule(path, CI_TABLE) == Some(system) <==> BelongsTo(path, system)
  {
    hide FirstPrefix, HasPrefix;
    if path !in EXACT_CI_PATHS {
      NoPrefixIff(path, PREFIX_CI_PATHS);
      if i :| 0 <= i < |PREFIX_CI_PATHS| && HasPrefix(path, PREFIX_CI_PATHS[i].0) {
        DirectoryDecides(path, i);
        forall j | 0 <= j < |PREFIX_CI_PATHS| && HasPrefix(path, PREFIX_CI_PATHS[j].0)
          ensures j == i
        {
          OnePrefixAtMost(path, i, j);
        }
      }
    }
  }

  /** A listing is a CI system's by its first path that belongs to any. */
  lemma CiNamesTheFirst(paths: seq<string>, truncated: bool, n: nat, system: string)
    requires n < |paths| && BelongsTo(paths[n], system)
    requires forall i, other :: 0 <= i < n ==> !BelongsTo(paths[i], other)
    ensures CiDetection(paths, truncated, CI_TABLE) == Detection(Yes, [paths[n]], system, Matched)
  {
    hide CiRule, BelongsTo, CiDetection;
    CiSystemIff(paths[n], system);
    forall i | 0 <= i < n
      ensures CiRule(paths[i], CI_TABLE).None?
    {
      if CiRule(paths[i], CI_TABLE).Some? {
        CiSystemIff(paths[i], CiRule(paths[i], CI_TABLE).value);
      }
    }
    CiEvidenceIsFirst(paths, truncated, CI_TABLE, n);
  }

  // ── vendored trees ─────────────────────────────────────────────────────────

  lemma SegmentStandsIff(path: string, directory: string)
    requires '/' !in directory
    ensures directory in Split(path, '/') <==> Stands(path, directory)
  {
    hide Stands;
    var segments := Split(path, '/');
    SegmentsStandIff(path, [directory]);
    if directory in segments {
      var j :| 0 <= j < |segments| && segments[j] == directory;
      assert Run(segments, [directory], j);
    }
    if Follow(path, [directory]) {
      var j: nat :| Run(segments, [directory], j);
      assert segments[j..j + 1][0] == segments[j];
    }
  }

  /** Two segments in a row. */
  ghost predicate InARow(segments: seq<string>, first: string, second: string) {
    exists i :: 0 <= i < |segments| - 1 && segments[i] == first && segments[i + 1] == second
  }

  lemma TwoSegmentsStandIff(path: string, first: string, second: string)
    requires '/' !in first && '/' !in second
    ensures InARow(Split(path, '/'), first, second) <==> Stands(path, first + "/" + second)
  {
    hide Stands;
    var segments, parts := Split(path, '/'), [first, second];
    assert Join(parts, '/') == first + "/" + second by { assert parts[1..] == [second]; }
    SegmentsStandIff(path, parts);
    if i :| 0 <= i < |segments| - 1 && segments[i] == first && segments[i + 1] == second {
      assert Run(segments, parts, i);
    }
    if Follow(path, parts) {
      var j: nat :| Run(segments, parts, j);
      assert segments[j..j + 2][0] == segments[j] && segments[j..j + 2][1] == segments[j + 1];
    }
  }

  lemma NamesHaveNoSlash()
    ensures forall d :: d in VENDORED_SEGMENTS || d in TEST_DIRECTORIES ==> '/' !in d
  {
  }

  lemma VendoredBySegments(path: string)
    ensures var segments := Split(path, '/');
            IsVendored(path) <==> || (exists d :: d in VENDORED_SEGMENTS && d in segments)
                                  || (exists t :: t in TEST_DIRECTORIES && InARow(segments, t, "fixtures"))
  {
    hide Split;
    var segments := Split(path, '/');
    if i :| 0 <= i < |segments| && segments[i] in VENDORED_SEGMENTS {
      assert segments[i] in segments;
    }
    if i :| 0 <= i < |segments| - 1 && segments[i] in TEST_DIRECTORIES && segments[i + 1] == "fixtures" {
      assert InARow(segments, segments[i], "fixtures");
    }
  }

  /**
   * A path is vendored exactly when a vendored name stands in it as a whole segment, or a test directory's with
   * `fixtures` right below it; a name that merely contains one is not.
   */
  lemma VendoredIff(path: string)
    ensures IsVendored(path) <==> || (exists d :: d in VENDORED_SEGMENTS && Stands(path, d))
                                  || (exists t :: t in TEST_DIRECTORIES && Stands(path, t + "/fixtures"))
  {
    hide IsVendored, Stands, InARow, Split;
    VendoredBySegments(path);
    NamesHaveNoSlash();
    forall d | d in VENDORED_SEGMENTS
      ensures d in Split(path, '/') <==> Stands(path, d)
    {
      SegmentStandsIff(path, d);
    }
    forall t | t in TEST_DIRECTORIES
      ensures InARow(Split(path, '/'), t, "fixtures") <==> Stands(path, t + "/fixtures")
    {
      TwoSegmentsStandIff(path, t, "fixtures");
      assert t + "/" + "fixtures" == t + "/fixtures";
    }
  }

  // ── tests ──────────────────────────────────────────────────────────────────

  /** Of the rules, the first that matches is number `i`. */
  ghost predicate FirstMatch(path: string, rules: seq<Rule>, i: nat) {
    i < |rules| && rules[i].matches(path) && forall j :: 0 <= j < i ==> !rules[j].matches(path)
  }

  lemma {:induction false} FirstRuleIs(path: string, rules: seq<Rule>, i: nat)
    requires FirstMatch(path, rules, i)
    ensures FirstRule(path, rules) == Some(rules[i].id)
  {
    if i > 0 {
      assert rules[1..][i - 1] == rules[i];
      assert forall j :: 0 <= j < i - 1 ==> rules[1..][j] == rules[j + 1];
      FirstRuleIs(path, rules[1..], i - 1);
    }
  }

  lemma NoMatchBefore(path: string, a: seq<Rule>, b: seq<Rule>, i: nat)
    requires !SomeMatches(path, a) && FirstMatch(path, b, i)
    ensures FirstMatch(path, a + b, |a| + i)
  {
    forall j | 0 <= j < |a| + i
      ensures !(a + b)[j].matches(path)
    {
      if j < |a| {
        assert !a[j].matches(path);
      } else {
        assert !b[j - |a|].matches(path);
      }
    }
  }

  lemma MatchStays(path: string, a: seq<Rule>, b: seq<Rule>, i: nat)
    requires FirstMatch(path, a, i)
    ensures FirstMatch(path, a + b, i)
  {
    assert forall j :: 0 <= j <= i ==> (a + b)[j] == a[j];
  }

  lemma NoActiveMatch(path: string, keys: seq<string>, known: Knowledge)
    requires forall m :: 0 <= m < |keys| ==> !SomeMatches(path, known.rules(keys[m]))
    ensures !SomeMatches(path, ActiveRules(keys, known))
  {
    ActiveRulesAreTheLanguages(path, keys, known);
  }

  lemma {:induction false} ActiveMatch(path: string, keys: seq<string>, known: Knowledge, k: nat, i: nat)
    returns (n: nat)
    requires k < |keys| && FirstMatch(path, known.rules(keys[k]), i)
    requires forall m :: 0 <= m < k ==> !SomeMatches(path, known.rules(keys[m]))
    ensures FirstMatch(path, ActiveRules(keys, known), n) && ActiveRules(keys, known)[n] == known.rules(keys[k])[i]
    decreases |keys|
  {
    var front, last := keys[..|keys| - 1], keys[|keys| - 1];
    if k < |keys| - 1 {
      n := ActiveMatch(path, front, known, k, i);
      MatchStays(path, ActiveRules(front, known), known.rules(last), n);
    } else {
      NoActiveMatch(path, front, known);
      NoMatchBefore(path, ActiveRules(front, known), known.rules(last), i);
      n := |ActiveRules(front, known)| + i;
    }
  }

  /** Sorted, the names reach the first language with a matching rule before any other that has one. */
  lemma FirstLanguageStands(path: string, keys: seq<string>, languages: set<string>, known: Knowledge, language: string)
    returns (k: nat)
    requires NamesLanguages(keys, languages) && Names(language, languages)
    requires forall x :: x in languages && Before(ToLower(x), language) ==> !SomeMatches(path, known.rules(ToLower(x)))
    ensures k < |keys| && keys[k] == language && forall m :: 0 <= m < k ==> !SomeMatches(path, known.rules(keys[m]))
  {
    var last :| 0 <= last < |keys| && keys[last] == language;
    k := 0;
    while keys[k] != language
      invariant k <= last && forall m :: 0 <= m < k ==> keys[m] != language
      decreases last - k
    {
      k := k + 1;
    }
    forall m | 0 <= m < k
      ensures !SomeMatches(path, known.rules(keys[m]))
    {
      assert Names(keys[m], languages);
      BeforeTotal(keys[m], language);
    }
  }

  /**
   * `language` is the first in the alphabet, of those present, with a rule for the path; its first such is number
   * `i`.
   */
  ghost predicate Decides(path: string, languages: set<string>, known: Knowledge, language: string, i: nat) {
    && Names(language, languages)
    && FirstMatch(path, known.rules(language), i)
    && forall x :: x in languages && Before(ToLower(x), language) ==> !SomeMatches(path, known.rules(ToLower(x)))
  }

  lemma RuleThatDecides(path: string, keys: seq<string>, languages: set<string>, known: Knowledge, language: string,
                        i: nat)
    requires NamesLanguages(keys, languages) && Decides(path, languages, known, language, i)
    ensures FirstRule(path, ActiveRules(keys, known)) == Some(known.rules(language)[i].id)
  {
    var k := FirstLanguageStands(path, keys, languages, known, language);
    var n := ActiveMatch(path, keys, known, k, i);
    FirstRuleIs(path, ActiveRules(keys, known), n);
  }

  /**
   * The answer names the first test file of the listing first, and the rule is that of the language, first in the
   * alphabet of those present, that has a rule for it.
   */
  lemma TestsNameTheFirst(d: Detection, paths: seq<string>, languages: set<string>, truncated: bool, known: Knowledge,
                          n: nat, language: string, i: nat)
    requires Answers(d, paths, languages, truncated, known) && n < |paths|
    requires !IsVendored(paths[n]) && Decides(paths[n], languages, known, language, i)
    requires forall m :: 0 <= m < n ==> !Proves(paths[m], languages, known)
    ensures d.result == Yes && d.reason == Matched && d.ruleId == known.rules(language)[i].id
    ensures d.evidence != [] && d.evidence[0] == paths[n]
  {
    hide Decides, NamesLanguages, IsVendored, Proves;
    var keys :| NamesLanguages(keys, languages) && d == TestDetection(paths, keys, truncated, known);
    var rules := ActiveRules(keys, known);
    RuleThatDecides(paths[n], keys, languages, known, language, i);
    forall m | 0 <= m < n
      ensures !IsTest(paths[m], rules)
    {
      TestFilesAreTheProofs(paths[m], keys, languages, known);
    }
    FilterNone(IsTestBy(rules), paths[..n]);
    NextPath(IsTestBy(rules), paths, n);
  }
}
