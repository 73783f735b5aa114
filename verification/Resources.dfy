/**
 * Discovered resources and each repository's claims on them.
 *
 * Shared resources are looked up by locator, for any number of claiming repositories; a scoped one belongs
 * to a single repository. Claims are swept per repository; a resource is retired only once nothing claims it.
 */
module Resources {
  import opened Wrappers
  import opened DerivedRows
  import opened Facts
  import opened Fingerprints
  import opened Collector
  import opened Relationships

  datatype ResourcePlace =
    | Shared(organization: string, engine: string, host: string, port: int, namespace: string)
    | Scoped(organization: string, repository: string, engine: string, displayName: string)

  datatype Evidence = Evidence(displayName: string, ruleId: string, confidence: real, paths: seq<string>)

  datatype ClaimPlace = ClaimPlace(repository: string, resource: nat)

  type Resource = Row<ResourcePlace, Evidence>

  /** A repository's link to a resource row. */
  type Claim = Row<ClaimPlace, Evidence>

  datatype Tables = Tables(resources: seq<Resource>, links: seq<Claim>)

  type ResourcesFact = Fact<seq<ResourceFinding>>

  function ResourceKeyFor(repository: string): string {
    "resource:v1:repo/" + repository
  }

  function ResourceFingerprint(f: ResourceFinding): string {
    Fingerprint([f.ruleId, f.locator.engine, f.locator.host, f.locator.namespace, f.displayName])
  }

  /** A missing port is stored as -1, so that two locators without one are the same place. */
  function PlaceOf(organization: string, repository: string, f: ResourceFinding): ResourcePlace {
    if f.scoped then Scoped(organization, repository, f.locator.engine, f.displayName)
    else Shared(organization, f.locator.engine, f.locator.host,
                if f.locator.port.Some? then f.locator.port.value else -1, f.locator.namespace)
  }

  /** Who is writing, and when. */
  datatype Writer = Writer(organization: string, repository: string, seenAt: int)

  function MarkFor(w: Writer, f: ResourceFinding): Option<Mark> {
    Some(Mark(ResourceKeyFor(w.repository), ResourceFingerprint(f), w.seenAt))
  }

  function EvidenceFrom(f: ResourceFinding): Evidence {
    Evidence(f.displayName, f.ruleId, f.confidence, f.evidence)
  }

  function ResourceRow(w: Writer, f: ResourceFinding): Resource {
    Row(PlaceOf(w.organization, w.repository, f), MarkFor(w, f), true, EvidenceFrom(f))
  }

  function LinkRow(w: Writer, f: ResourceFinding, resource: nat): Claim {
    Row(ClaimPlace(w.repository, resource), MarkFor(w, f), true, EvidenceFrom(f))
  }

  function ResourceRows(w: Writer, findings: seq<ResourceFinding>): seq<Resource> {
    seq(|findings|, i requires 0 <= i < |findings| => ResourceRow(w, findings[i]))
  }

  /** The resources table after these findings, each of which finds or creates its row. */
  function ResourcesAfter(resources: seq<Resource>, w: Writer, findings: seq<ResourceFinding>): seq<Resource> {
    PutAll(resources, ResourceRows(w, findings), ByPlaceKeepingMark)
  }

  /** The row a finding's resource has once the findings before it are recorded. */
  function ResourceIdOf(resources: seq<Resource>, w: Writer, before: seq<ResourceFinding>, f: ResourceFinding): nat {
    PutIndex(ResourcesAfter(resources, w, before), ResourceRow(w, f), ByPlaceKeepingMark)
  }

  /** The claims these findings make, each on the row its resource was found or created at. */
  function LinkRows(resources: seq<Resource>, w: Writer, findings: seq<ResourceFinding>): (r: seq<Claim>)
    ensures |r| == |findings|
  {
    if findings == [] then []
    else
      var front, last := findings[..|findings| - 1], findings[|findings| - 1];
      LinkRows(resources, w, front) + [LinkRow(w, last, ResourceIdOf(resources, w, front, last))]
  }

  /** A scoped resource of no repository is refused too: the column is an identifier. */
  predicate StorableResource(row: Resource) {
    && row.place.organization != "" && row.place.engine != "" && (row.place.Scoped? ==> row.place.repository != "")
    && row.mark.Some? && row.mark.value.key != ""
  }

  predicate StorableLink(row: Claim) {
    row.place.repository != "" && 0.0 <= row.content.confidence <= 1.0 && row.mark.Some? && row.mark.value.key != ""
  }

  /** Whether a finding's resource, and its claim on whichever row that is, are accepted. */
  predicate Records(w: Writer, f: ResourceFinding) {
    StorableResource(ResourceRow(w, f)) && StorableLink(LinkRow(w, f, 0))
  }

  /** How many findings are recorded in full: each takes two storage calls, and the first failure stops the run. */
  function FullyRecorded(w: Writer, findings: seq<ResourceFinding>, calls: nat): (n: nat)
    ensures n <= |findings| && 2 * n <= calls
  {
    if findings == [] then 0
    else
      var last := |findings| - 1;
      var n := FullyRecorded(w, findings[..last], calls);
      if n == last && 2 * n + 2 <= calls && Records(w, findings[last]) then n + 1 else n
  }

  /** How many resource rows are written: the finding that stops the run may still leave its resource behind. */
  function RecordedResources(w: Writer, findings: seq<ResourceFinding>, calls: nat): (n: nat)
    ensures FullyRecorded(w, findings, calls) <= n <= |findings|
  {
    var n := FullyRecorded(w, findings, calls);
    if n < |findings| && 2 * n < calls && StorableResource(ResourceRow(w, findings[n])) then n + 1 else n
  }

  function Unsuppressed(findings: seq<ResourceFinding>, hidden: set<string>): seq<ResourceFinding> {
    Filter(f => ResourceFingerprint(f) !in hidden, findings)
  }

  predicate OfRepository(repository: string, place: ClaimPlace) {
    place.repository == repository
  }

  function ScopeOf(repository: string): ClaimPlace -> bool {
    place => OfRepository(repository, place)
  }

  /** The tables after the write loop. */
  function Written(t: Tables, w: Writer, findings: seq<ResourceFinding>, calls: nat): Tables {
    Tables(ResourcesAfter(t.resources, w, findings[..RecordedResources(w, findings, calls)]),
           PutAll(t.links, LinkRows(t.resources, w, findings[..FullyRecorded(w, findings, calls)]), ByMark))
  }

  /** One repository's reconciliation; `calls` is how many storage calls succeed before one fails. */
  function ReconciledFact(t: Tables, organization: string, fact: ResourcesFact, hidden: set<string>, startedAt: int,
                          calls: nat)
    : (r: (Tables, Outcome))
  {
    if calls == 0 then (t, Failed(0))
    else
      var w := Writer(organization, fact.repository, startedAt + ONE_MILLISECOND);
      var findings := Unsuppressed(fact.data, hidden);
      Finished(Written(t, w, findings, calls - 1), FullyRecorded(w, findings, calls - 1), |findings|, fact.repository,
               Reading(fact).complete, startedAt, calls - 1)
  }

  /** After the write loop recorded `n` of `total` findings: the sweep, if every condition for it is met. */
  function Finished(written: Tables, n: nat, total: nat, repository: string, complete: bool, startedAt: int,
                    calls: nat): (Tables, Outcome)
  {
    if n < total then (written, Failed(n))
    else if !complete then (written, Done(n, true))
    else if 2 * n >= calls || repository == "" then (written, Failed(n))
    else (written.(links := Sweep(written.links, ScopeOf(repository), ResourceKeyFor(repository), startedAt)), Done(n, false))
  }

  /** Some repository still has a live claim on the resource. */
  ghost predicate Claimed(links: seq<Claim>, resource: nat) {
    exists l :: 0 <= l < |links| && links[l].live && links[l].place.resource == resource
  }

  predicate IsClaimed(links: seq<Claim>, resource: nat)
    ensures IsClaimed(links, resource) <==> Claimed(links, resource)
  {
    exists l :: 0 <= l < |links| && links[l].live && links[l].place.resource == resource
  }

  predicate Orphan(t: Tables, organization: string, i: nat)
    requires i < |t.resources|
  {
    var r := t.resources[i];
    r.live && r.mark.Some? && r.place.organization == organization && !IsClaimed(t.links, i)
  }

  function Retired(t: Tables, organization: string): (r: Tables)
    ensures r.links == t.links && |r.resources| == |t.resources|
    ensures forall i :: 0 <= i < |t.resources| ==>
                          r.resources[i] == if Orphan(t, organization, i) then t.resources[i].(live := false) else t.resources[i]
  {
    t.(resources := seq(|t.resources|, i requires 0 <= i < |t.resources| =>
      if Orphan(t, organization, i) then t.resources[i].(live := false) else t.resources[i]))
  }

  /** What is known before a run: the suppressed fingerprints of each repository's key, and when storage will fail. */
  datatype RunInput = RunInput(facts: seq<ResourcesFact>, hidden: string -> set<string>, calls: nat -> nat,
                               retires: bool)

  /** Reconciling the first `n` facts, and whether any of them was allowed to sweep. */
  function ReconciledFacts(t: Tables, organization: string, input: RunInput, startedAt: int,
                           n: nat): (r: (Tables, bool))
    requires n <= |input.facts|
  {
    if n == 0 then (t, false)
    else
      var before := ReconciledFacts(t, organization, input, startedAt, n - 1);
      var fact := input.facts[n - 1];
      var step := ReconciledFact(before.0, organization, fact, input.hidden(fact.repository), startedAt,
                                 input.calls(n - 1));
      (step.0, before.1 || (step.1.Done? && !step.1.sweepSkipped))
  }

  /**
   * A whole run: one repository's failure does not stop the others, and orphans go only if some sweep was authorised.
   */
  function ReconciledRun(t: Tables, organization: string, input: RunInput, startedAt: int): Tables {
    var after := ReconciledFacts(t, organization, input, startedAt, |input.facts|);
    if after.1 && input.retires && organization != "" then Retired(after.0, organization) else after.0
  }

  // ── the store ──────────────────────────────────────────────────────────────

  class ResourceStore {
    var resources: seq<Resource>
    var links: seq<Claim>

    ghost function Model(): Tables
      reads this
    {
      Tables(resources, links)
    }

    constructor ()
      ensures Model() == Tables([], [])
    {
      resources, links := [], [];
    }

    /**
     * Refuses an invalid row, else finds the row that already has the place, or inserts one, and says which row it
     * is.
     */
    method UpsertDerivedResource(row: Resource) returns (id: Option<nat>)
      modifies `resources
      ensures id == if StorableResource(row) then Some(PutIndex(old(resources), row, ByPlaceKeepingMark)) else None
      ensures resources == if StorableResource(row) then Put(old(resources), row, ByPlaceKeepingMark) else old(resources)
    {
      if !StorableResource(row) {
        return None;
      }
      var twin := Twin(resources, row, ByPlaceKeepingMark);
      match twin
      case Some(i) =>
        resources := resources[i := Revived(resources[i], row, ByPlaceKeepingMark)];
        return Some(i);
      case None =>
        resources := resources + [row];
        return Some(|resources| - 1);
    }

    method UpsertDerivedRepositoryResource(row: Claim) returns (ok: bool)
      modifies `links
      ensures ok == StorableLink(row)
      ensures links == if ok then Put(old(links), row, ByMark) else old(links)
    {
      ok := StorableLink(row);
      if ok {
        var twin := Twin(links, row, ByMark);
        match twin
        case Some(i) => links := links[i := Row(links[i].place, row.mark, true, row.content)];
        case None => links := links + [row];
      }
    }

    method SweepDerivedRepositoryResources(repository: string, key: string, startedAt: int)
      modifies `links
      ensures links == Sweep(old(links), ScopeOf(repository), key, startedAt)
    {
      links := Sweep(links, ScopeOf(repository), key, startedAt);
    }

    method RetireOrphanResources(organization: string)
      modifies `resources
      ensures Model() == Retired(old(Model()), organization)
    {
      var n := 0;
      while n < |resources|
        invariant n <= |resources| == |old(resources)|
        invariant forall i :: 0 <= i < n ==> resources[i] == Retired(old(Model()), organization).resources[i]
        invariant forall i :: n <= i < |resources| ==> resources[i] == old(resources)[i]
      {
        if resources[n].live && resources[n].mark.Some? && resources[n].place.organization == organization && !IsClaimed(links, n) {
          resources := resources[n := resources[n].(live := false)];
        }
        n := n + 1;
      }
      assert resources == Retired(old(Model()), organization).resources;
    }

    /** One finding: a resource, then the claim on it; `left` storage calls may still succeed. */
    method RecordFinding(w: Writer, f: ResourceFinding, left: int) returns (ok: bool)
      modifies this
      ensures ok == (2 <= left && Records(w, f))
      ensures resources == if 1 <= left && StorableResource(ResourceRow(w, f)) then Put(old(resources), ResourceRow(w, f), ByPlaceKeepingMark)
                           else old(resources)
      ensures links == if ok then Put(old(links),
                                      LinkRow(w, f, PutIndex(old(resources), ResourceRow(w, f), ByPlaceKeepingMark)), ByMark)
                       else old(links)
    {
      if left < 1 {
        return false;
      }
      var id := UpsertDerivedResource(ResourceRow(w, f));
      if id.None? || left < 2 {
        return false;
      }
      ok := UpsertDerivedRepositoryResource(LinkRow(w, f, id.value));
    }

    /** The write loop of one repository, over every unsuppressed finding; the first failure stops it. */
    method RecordFindings(w: Writer, findings: seq<ResourceFinding>, calls: nat) returns (recorded: nat, ok: bool)
      modifies this
      ensures recorded == FullyRecorded(w, findings, calls) && ok == (recorded == |findings|)
      ensures Model() == Written(old(Model()), w, findings, calls)
    {
      recorded, ok := 0, true;
      while recorded < |findings|
        invariant recorded <= |findings| && FullyRecorded(w, findings[..recorded], calls) == recorded
        invariant resources == ResourcesAfter(old(resources), w, findings[..recorded])
        invariant links == PutAll(old(links), LinkRows(old(resources), w, findings[..recorded]), ByMark)
      {
        RecordedStep(w, findings, recorded, calls);
        RowsStep(old(resources), old(links), w, findings, recorded);
        ok := RecordFinding(w, findings[recorded], calls - 2 * recorded);
        if !ok {
          return;
        }
        recorded := recorded + 1;
      }
      WholePrefix(findings);
    }

    /** The gate of the sweep: everything was recorded and the fact was complete. */
    method FinishFact(n: nat, total: nat, repository: string, complete: bool, startedAt: int, calls: nat)
      returns (outcome: Outcome)
      modifies this
      ensures (Model(), outcome) == Finished(old(Model()), n, total, repository, complete, startedAt, calls)
    {
      if n < total {
        return Failed(n);
      }
      if !complete {
        return Done(n, true);
      }
      if 2 * n >= calls || repository == "" {
        return Failed(n);
      }
      SweepDerivedRepositoryResources(repository, ResourceKeyFor(repository), startedAt);
      return Done(n, false);
    }

    method ReconcileResources(organization: string, fact: ResourcesFact, hidden: set<string>, startedAt: int,
                              calls: nat)
      returns (outcome: Outcome)
      modifies this
      ensures (Model(), outcome) == ReconciledFact(old(Model()), organization, fact, hidden, startedAt, calls)
    {
      hide Written, Finished, FullyRecorded, Unsuppressed, Reading;
      if calls == 0 {
        return Failed(0);
      }
      var w := Writer(organization, fact.repository, startedAt + ONE_MILLISECOND);
      var findings := Unsuppressed(fact.data, hidden);
      var recorded, _ := RecordFindings(w, findings, calls - 1);
      outcome := FinishFact(recorded, |findings|, fact.repository, Reading(fact).complete, startedAt, calls - 1);
    }

    /** One run over every repository's fact; a failure on one does not stop the rest. */
    method ReconcileNodes(organization: string, input: RunInput, startedAt: int)
      modifies this
      ensures Model() == ReconciledRun(old(Model()), organization, input, startedAt)
    {
      var anySwept := false;
      for n := 0 to |input.facts|
        invariant (Model(), anySwept) == ReconciledFacts(old(Model()), organization, input, startedAt, n)
      {
        var fact := input.facts[n];
        var outcome := ReconcileResources(organization, fact, input.hidden(fact.repository), startedAt, input.calls(n));
        if outcome.Done? && !outcome.sweepSkipped {
          anySwept := true;
        }
      }
      if anySwept && input.retires && organization != "" {
        RetireOrphanResources(organization);
      }
    }
  }

  lemma RecordedStep(w: Writer, findings: seq<ResourceFinding>, n: nat, calls: nat)
    requires n < |findings| && FullyRecorded(w, findings[..n], calls) == n
    ensures FullyRecorded(w, findings[..n + 1], calls)
            == if 2 * n + 2 <= calls && Records(w, findings[n]) then n + 1 else n
    ensures FullyRecorded(w, findings[..n + 1], calls) == n ==> FullyRecorded(w, findings, calls) == n
  {
    assert findings[..n + 1][..n] == findings[..n];
    if FullyRecorded(w, findings[..n + 1], calls) == n {
      RecordedStops(w, findings[..n + 1], findings, calls);
    }
  }

  lemma {:induction false} RecordedStops(w: Writer, front: seq<ResourceFinding>, findings: seq<ResourceFinding>,
                                         calls: nat)
    requires front <= findings && FullyRecorded(w, front, calls) < |front|
    ensures FullyRecorded(w, findings, calls) == FullyRecorded(w, front, calls)
    decreases |findings|
  {
    if |front| < |findings| {
      RecordedStops(w, front, findings[..|findings| - 1], calls);
    } else {
      assert front == findings;
    }
  }

  lemma RowsStep(resources: seq<Resource>, links: seq<Claim>, w: Writer, findings: seq<ResourceFinding>, n: nat)
    requires n < |findings|
    ensures var f, front := findings[n], findings[..n];
            && ResourcesAfter(resources, w, findings[..n + 1])
               == Put(ResourcesAfter(resources, w, front), ResourceRow(w, f), ByPlaceKeepingMark)
            && PutAll(links, LinkRows(resources, w, findings[..n + 1]), ByMark)
               == Put(PutAll(links, LinkRows(resources, w, front), ByMark),
                      LinkRow(w, f, ResourceIdOf(resources, w, front, f)), ByMark)
  {
    var f, front := findings[n], findings[..n];
    ResourcesStep(resources, w, findings, n);
    LinksStep(resources, w, findings, n);
    PutAllStep(links, LinkRows(resources, w, front), LinkRow(w, f, ResourceIdOf(resources, w, front, f)), ByMark);
  }

  lemma ResourcesStep(resources: seq<Resource>, w: Writer, findings: seq<ResourceFinding>, n: nat)
    requires n < |findings|
    ensures ResourcesAfter(resources, w, findings[..n + 1])
            == Put(ResourcesAfter(resources, w, findings[..n]), ResourceRow(w, findings[n]), ByPlaceKeepingMark)
  {
    assert ResourceRows(w, findings[..n + 1]) == ResourceRows(w, findings[..n]) + [ResourceRow(w, findings[n])];
    PutAllStep(resources, ResourceRows(w, findings[..n]), ResourceRow(w, findings[n]), ByPlaceKeepingMark);
  }

  lemma LinksStep(resources: seq<Resource>, w: Writer, findings: seq<ResourceFinding>, n: nat)
    requires n < |findings|
    ensures LinkRows(resources, w, findings[..n + 1])
            == LinkRows(resources, w, findings[..n]) + [LinkRow(w, findings[n],
                                                                ResourceIdOf(resources, w, findings[..n], findings[n]))]
  {
    assert findings[..n + 1][..n] == findings[..n];
  }
}
