/** What a repository's collected resources keep, and when their listing is determined. */
module CollectorProperties {
  import opened Wrappers
  import opened Ordering
  import opened Collector

  function RecordAll(findings: seq<(ResourceFinding, string)>): map<ResourceKey, ResourceFinding> {
    if findings == [] then map[]
    else
      var last := findings[|findings| - 1];
      Recorded(RecordAll(findings[..|findings| - 1]), last.0, last.1)
  }

  /**
   * Whatever is recorded, every stored finding sits under its own key; so an agreeing finding is scoped exactly
   * when the stored one is, and a scoped finding never turns into a shared one.
   */
  lemma {:induction false} StoredUnderTheirKeys(findings: seq<(ResourceFinding, string)>, next: ResourceFinding)
    ensures KeysMatch(RecordAll(findings))
    ensures KeyOf(next) in RecordAll(findings) ==> RecordAll(findings)[KeyOf(next)].scoped == next.scoped
  {
    if findings != [] {
      var last := findings[|findings| - 1];
      StoredUnderTheirKeys(findings[..|findings| - 1], last.0);
    }
    assert KeyOf(next) in RecordAll(findings) ==> KeyOf(RecordAll(findings)[KeyOf(next)]) == KeyOf(next);
  }

  function RecordedPaths(evidence: seq<string>, paths: seq<string>): seq<string> {
    if paths == [] then evidence else WithEvidence(RecordedPaths(evidence, paths[..|paths| - 1]), paths[|paths| - 1])
  }

  /** The evidence kept is the first three distinct paths, in the order they were seen. */
  lemma {:induction false} EvidenceIsTheFirstThree(paths: seq<string>)
    requires "" !in paths
    ensures var distinct := Dedup(paths);
            RecordedPaths([], paths) == distinct[..if |distinct| < MAX_EVIDENCE then |distinct| else MAX_EVIDENCE]
  {
    if paths != [] {
      EvidenceIsTheFirstThree(paths[..|paths| - 1]);
    }
  }

  ghost predicate NoTies(resources: map<ResourceKey, ResourceFinding>) {
    forall x, y :: x in resources && y in resources && LabelOf(resources[x]) == LabelOf(resources[y]) ==> x == y
  }

  function Labels(list: seq<ResourceFinding>): seq<(string, string)> {
    seq(|list|, i requires 0 <= i < |list| => LabelOf(list[i]))
  }

  lemma SortedWithoutTiesAscends(list: seq<ResourceFinding>, resources: map<ResourceKey, ResourceFinding>)
    requires ListsResources(list, resources) && NoTies(resources)
    ensures Ascending(Labels(list), PairBefore)
  {
    PairBeforeIsStrictOrder();
    forall i, j | 0 <= i < j < |list|
      ensures PairBefore(LabelOf(list[i]), LabelOf(list[j]))
    {
      assert list[i] in list && list[j] in list;
      assert list[i] != list[j];
      assert KeyOf(list[i]) != KeyOf(list[j]);
    }
  }

  lemma ListingIsDetermined(a: seq<ResourceFinding>, b: seq<ResourceFinding>, resources: map<ResourceKey,
                            ResourceFinding>)
    requires ListsResources(a, resources) && ListsResources(b, resources) && NoTies(resources)
    ensures a == b
  {
    var x, y := Labels(a), Labels(b);
    SortedWithoutTiesAscends(a, resources);
    SortedWithoutTiesAscends(b, resources);
    forall l
      ensures l in x <==> l in y
    {
      if l in x {
        var i :| 0 <= i < |a| && x[i] == l;
        assert a[i] in b;
        var j :| 0 <= j < |b| && b[j] == a[i];
        assert y[j] == l;
      }
      if l in y {
        var j :| 0 <= j < |b| && y[j] == l;
        assert b[j] in a;
        var i :| 0 <= i < |a| && a[i] == b[j];
        assert x[i] == l;
      }
    }
    PairBeforeIsStrictOrder();
    AscendingIsUnique(x, y, PairBefore);
    assert |a| == |x| == |y| == |b|;
    forall i | 0 <= i < |a|
      ensures a[i] == b[i]
    {
      assert x[i] == y[i];
      assert a[i] in a && b[i] in b;
      assert KeyOf(a[i]) == KeyOf(b[i]);
    }
  }

  /** Exchanging two findings with equal labels gives another sorted listing. */
  lemma TiedFindingsMaySwap(list: seq<ResourceFinding>, resources: map<ResourceKey, ResourceFinding>, i: nat, j: nat)
    requires ListsResources(list, resources) && i < j < |list| && LabelOf(list[i]) == LabelOf(list[j])
    ensures ListsResources(list[i := list[j]][j := list[i]], resources) && list[i := list[j]][j := list[i]] != list
  {
    var swapped := list[i := list[j]][j := list[i]];
    assert forall k :: 0 <= k < |list| ==> LabelOf(swapped[k]) == LabelOf(list[k]);
    forall f
      ensures f in swapped <==> f in list
    {
      if f in list {
        var k :| 0 <= k < |list| && list[k] == f;
        assert swapped[if k == i then j else if k == j then i else k] == f;
      }
      if f in swapped {
        var k :| 0 <= k < |list| && swapped[k] == f;
        assert list[if k == i then j else if k == j then i else k] == f;
      }
    }
  }

  lemma TiesLeaveAChoice(list: seq<ResourceFinding>, resources: map<ResourceKey, ResourceFinding>)
    returns (other: seq<ResourceFinding>)
    requires KeysMatch(resources) && ListsResources(list, resources) && !NoTies(resources)
    ensures ListsResources(other, resources) && other != list
  {
    var x, y :| x in resources && y in resources && LabelOf(resources[x]) == LabelOf(resources[y]) && x != y;
    var p := PositionOf(list, resources, x);
    var q := PositionOf(list, resources, y);
    hide ListsResources;
    var i, j := if p < q then p else q, if p < q then q else p;
    TiedFindingsMaySwap(list, resources, i, j);
    other := list[i := list[j]][j := list[i]];
  }

  lemma PositionOf(list: seq<ResourceFinding>, resources: map<ResourceKey, ResourceFinding>, key: ResourceKey)
    returns (p: nat)
    requires KeysMatch(resources) && ListsResources(list, resources) && key in resources
    ensures p < |list| && list[p] == resources[key] && KeyOf(list[p]) == key
  {
    assert resources[key] in list;
    p :| 0 <= p < |list| && list[p] == resources[key];
  }

  /**
   * The listing of a repository's resources is determined if and only if no two findings share engine and
   * display name — as two that differ only in port do.
   */
  lemma ListingIsDeterminedIff(list: seq<ResourceFinding>, resources: map<ResourceKey, ResourceFinding>)
    requires KeysMatch(resources) && ListsResources(list, resources)
    ensures (forall other :: ListsResources(other, resources) ==> other == list) <==> NoTies(resources)
  {
    hide ListsResources, NoTies, KeysMatch;
    if NoTies(resources) {
      forall other | ListsResources(other, resources)
        ensures other == list
      {
        ListingIsDetermined(other, list, resources);
      }
    } else {
      var other := TiesLeaveAChoice(list, resources);
    }
  }

  /** Two connection strings that differ only in port always tie. */
  lemma PortsTie(a: Locator, b: Locator)
    requires a.engine == b.engine && a.host == b.host && a.namespace == b.namespace && a.port != b.port
    ensures LabelOf(DsnFinding(a)) == LabelOf(DsnFinding(b)) && KeyOf(DsnFinding(a)) != KeyOf(DsnFinding(b))
  {
  }
}
