/** The closed form of merging evidence, and exactly when its stated intentions hold. */
module ConsumptionMerge {
  import opened Wrappers
  import opened Consumption

  /** Position of the first edge with the greatest confidence. */
  function FirstMaximum(edges: seq<Edge>): (i: nat)
    requires edges != []
    ensures i < |edges|
    ensures forall j :: 0 <= j < |edges| ==> edges[j].confidence <= edges[i].confidence
    ensures forall j :: 0 <= j < i ==> edges[j].confidence < edges[i].confidence
  {
    if |edges| == 1 then 0
    else
      var before := FirstMaximum(edges[..|edges| - 1]);
      if edges[|edges| - 1].confidence > edges[before].confidence then |edges| - 1 else before
  }

  /** Position of the first edge not found in a test file, or 0 when there is none. */
  function FirstProduction(edges: seq<Edge>): (i: nat)
    requires edges != []
    ensures i < |edges|
    ensures !edges[i].fromTestFile || (i == 0 && forall j :: 0 <= j < |edges| ==> edges[j].fromTestFile)
    ensures forall j :: 0 <= j < i ==> edges[j].fromTestFile
  {
    if |edges| == 1 then 0
    else
      var before := FirstProduction(edges[..|edges| - 1]);
      if edges[before].fromTestFile && !edges[|edges| - 1].fromTestFile then |edges| - 1 else before
  }

  /** The edge whose rule, tier and fingerprint the merged edge carries. */
  function Owner(edges: seq<Edge>): (i: nat)
    requires edges != []
    ensures i < |edges|
  {
    if FirstMaximum(edges) > FirstProduction(edges) then FirstMaximum(edges) else FirstProduction(edges)
  }

  ghost predicate AllTest(edges: seq<Edge>) {
    forall i :: 0 <= i < |edges| ==> edges[i].fromTestFile
  }

  function Paths(edges: seq<Edge>): seq<string> {
    seq(|edges|, i requires 0 <= i < |edges| => edges[i].evidencePath)
  }

  /** What the edges merge to, field by field. */
  ghost predicate ClosedForm(m: Edge, edges: seq<Edge>)
    requires edges != []
  {
    && m.source == edges[0].source && m.target == edges[0].target && m.kind == edges[0].kind
    && m.caption == edges[0].caption && m.matchedHost == edges[0].matchedHost
    && m.confidence == edges[FirstMaximum(edges)].confidence
    && (m.fromTestFile <==> AllTest(edges))
    && m.evidencePath == edges[FirstProduction(edges)].evidencePath
    && m.envVar == edges[FirstProduction(edges)].envVar
    && m.alsoEvidence == Dedup(Paths(edges[1..]))
    && m.ruleId == edges[Owner(edges)].ruleId
    && m.tier == edges[Owner(edges)].tier
    && m.fingerprint == edges[Owner(edges)].fingerprint
  }

  lemma FirstsOfOneMore(edges: seq<Edge>)
    requires |edges| > 1
    ensures var front, last := edges[..|edges| - 1], |edges| - 1;
            && FirstMaximum(edges) == (if edges[last].confidence > edges[FirstMaximum(front)].confidence then last else FirstMaximum(front))
            && FirstProduction(edges) == (if edges[FirstProduction(front)].fromTestFile && !edges[last].fromTestFile then last else FirstProduction(front))
  {
  }

  lemma {:induction false} MergeFields(edges: seq<Edge>)
    requires edges != []
    ensures var m := MergeAll(edges);
            && m.source == edges[0].source && m.target == edges[0].target && m.kind == edges[0].kind
            && m.caption == edges[0].caption && m.matchedHost == edges[0].matchedHost
            && m.confidence == edges[FirstMaximum(edges)].confidence
            && m.fromTestFile == edges[FirstProduction(edges)].fromTestFile
            && m.evidencePath == edges[FirstProduction(edges)].evidencePath
            && m.envVar == edges[FirstProduction(edges)].envVar
            && m.ruleId == edges[Owner(edges)].ruleId && m.tier == edges[Owner(edges)].tier
            && m.fingerprint == edges[Owner(edges)].fingerprint
  {
    if |edges| > 1 {
      var front := edges[..|edges| - 1];
      MergeFields(front);
      FirstsOfOneMore(edges);
      assert front[FirstMaximum(front)] == edges[FirstMaximum(front)];
      assert front[FirstProduction(front)] == edges[FirstProduction(front)];
      assert front[Owner(front)] == edges[Owner(front)];
      assert front[0] == edges[0];
    }
  }

  lemma {:induction false} MergeAlso(edges: seq<Edge>)
    requires edges != [] && edges[0].alsoEvidence == []
    ensures MergeAll(edges).alsoEvidence == Dedup(Paths(edges[1..]))
  {
    if |edges| == 1 {
      assert Paths(edges[1..]) == [];
    } else {
      var front, last := edges[..|edges| - 1], edges[|edges| - 1];
      MergeAlso(front);
      TailOfFront(edges);
      PathsGrow(front[1..], last);
    }
  }

  lemma PathsGrow(edges: seq<Edge>, edge: Edge)
    ensures Dedup(Paths(edges + [edge])) == AppendUnique(Dedup(Paths(edges)), edge.evidencePath)
  {
    assert Paths(edges + [edge]) == Paths(edges) + [edge.evidencePath];
    DedupGrows(Paths(edges), edge.evidencePath);
  }

  /**
   * Closed form of merging: the greatest confidence, test-only when everything is, the path and variable of the
   * first production edge, every later path once, and the identity of whichever edge last took over.
   */
  lemma MergeHasClosedForm(edges: seq<Edge>)
    requires edges != [] && edges[0].alsoEvidence == []
    ensures ClosedForm(MergeAll(edges), edges)
  {
    MergeFields(edges);
    MergeAlso(edges);
  }

  lemma MergedPaths(edges: seq<Edge>)
    requires edges != [] && edges[0].alsoEvidence == []
    ensures MergeAll(edges).evidencePath == edges[FirstProduction(edges)].evidencePath
    ensures forall path :: path in MergeAll(edges).alsoEvidence <==> path in Paths(edges[1..])
  {
    MergeFields(edges);
    MergeAlso(edges);
  }

  /**
   * "Both evidence paths are kept" holds exactly when the first edge's own path survives: it is the production
   * evidence, or nothing is, or the path turns up again later. Otherwise a replaced test path is lost.
   */
  lemma EvidenceKeptIff(edges: seq<Edge>)
    requires edges != [] && edges[0].alsoEvidence == []
    ensures (forall i :: 0 <= i < |edges| ==> Keeps(MergeAll(edges), edges[i].evidencePath))
            <==> || !edges[0].fromTestFile || AllTest(edges)
                 || edges[0].evidencePath == edges[FirstProduction(edges)].evidencePath
                 || edges[0].evidencePath in Paths(edges[1..])
  {
    hide MergeAll, FirstProduction, Keeps, Paths;
    LaterPathsAreKept(edges);
    FirstPathIsKeptIff(edges);
  }

  lemma LaterPathsAreKept(edges: seq<Edge>)
    requires edges != [] && edges[0].alsoEvidence == []
    ensures forall i :: 0 < i < |edges| ==> Keeps(MergeAll(edges), edges[i].evidencePath)
  {
    hide MergeAll, FirstProduction;
    MergedPaths(edges);
    var tail := Paths(edges[1..]);
    forall i | 0 < i < |edges|
      ensures Keeps(MergeAll(edges), edges[i].evidencePath)
    {
      assert tail[i - 1] == edges[i].evidencePath;
    }
  }

  lemma FirstPathIsKeptIff(edges: seq<Edge>)
    requires edges != [] && edges[0].alsoEvidence == []
    ensures Keeps(MergeAll(edges), edges[0].evidencePath)
            <==> || !edges[0].fromTestFile || AllTest(edges)
                 || edges[0].evidencePath == edges[FirstProduction(edges)].evidencePath
                 || edges[0].evidencePath in Paths(edges[1..])
  {
    hide MergeAll, FirstProduction, Paths;
    MergedPaths(edges);
  }

  /** The merged edge still names the path. */
  predicate Keeps(m: Edge, path: string) {
    path == m.evidencePath || path in m.alsoEvidence
  }

  /** A piece of test evidence is the first of the greatest confidence, and production evidence came before it. */
  ghost predicate TakenOver(edges: seq<Edge>) {
    exists i, j :: 0 <= i < j < |edges| && !edges[i].fromTestFile && edges[j].fromTestFile && FirstGreatest(edges, j)
  }

  ghost predicate FirstGreatest(edges: seq<Edge>, j: nat)
    requires j < |edges|
  {
    && (forall k :: 0 <= k < |edges| ==> edges[k].confidence <= edges[j].confidence)
    && (forall k :: 0 <= k < j ==> edges[k].confidence < edges[j].confidence)
  }

  /** The piece of evidence that gives the merged edge its rule, tier and fingerprint is test evidence exactly then. */
  lemma IdentityIsTestIff(edges: seq<Edge>) returns (x: Edge)
    requires edges != []
    ensures x in edges && x == edges[Owner(edges)]
    ensures var m := MergeAll(edges); m.ruleId == x.ruleId && m.tier == x.tier && m.fingerprint == x.fingerprint
    ensures x.fromTestFile <==> AllTest(edges) || TakenOver(edges)
    ensures MergeAll(edges).fromTestFile <==> AllTest(edges)
  {
    MergeFields(edges);
    x := edges[Owner(edges)];
    var most, production := FirstMaximum(edges), FirstProduction(edges);
    if x.fromTestFile && !AllTest(edges) {
      assert production < most && FirstGreatest(edges, most) && !edges[production].fromTestFile;
    }
    if i, j :| 0 <= i < j < |edges| && !edges[i].fromTestFile && edges[j].fromTestFile && FirstGreatest(edges, j) {
      assert most == j && production <= i;
    }
  }

  /**
   * A stronger test edge after a production edge takes over rule and fingerprint while the edge still reads as
   * production.
   */
  lemma StrongerTestEdgeTakesOver(production: Edge, test: Edge)
    requires !production.fromTestFile && test.fromTestFile && production.alsoEvidence == []
    requires production.confidence < test.confidence
    ensures var m := MergeAll([production, test]);
            && m.ruleId == test.ruleId && m.fingerprint == test.fingerprint && m.tier == test.tier
            && !m.fromTestFile && m.evidencePath == production.evidencePath
  {
    var edges := [production, test];
    assert edges[..1] == [production];
    assert MergeAll(edges) == Merge(MergeAll([production]), test);
  }

  /** The test path a production edge replaces is lost. */
  lemma ReplacedTestPathIsLost(test: Edge, production: Edge)
    requires test.fromTestFile && !production.fromTestFile && test.alsoEvidence == []
    requires test.evidencePath != production.evidencePath
    ensures var m := MergeAll([test, production]);
            test.evidencePath != m.evidencePath && test.evidencePath !in m.alsoEvidence
  {
    var edges := [test, production];
    assert edges[..1] == [test];
    assert MergeAll(edges) == Merge(MergeAll([test]), production);
  }
}
