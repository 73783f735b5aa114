/** The relationship table as it is written: by derivation runs, by people, and by suppressions. */
module RelationshipStore {
  import opened Wrappers
  import opened DerivedRows
  import opened Relationships

  datatype State = State(rows: seq<Relationship>, suppressed: set<Suppression>)

  datatype Event =
    | Run(organization: string, key: string, derived: DerivedSet, startedAt: int, calls: nat)
    | Create(organization: string, repositories: map<string, string>, create: CreateRequest)
    | Update(organization: string, id: nat, update: UpdateRequest)
    | Delete(organization: string, id: nat)
    | Suppress(suppression: Suppression)

  /** The fingerprints a run must skip; an empty key does not narrow the listing. */
  function Hidden(suppressed: set<Suppression>, organization: string, key: string): set<string> {
    set x | x in suppressed && x.organization == organization && (key == "" || x.key == key) :: x.fingerprint
  }

  function RepositoryProblem(repositories: map<string, string>, id: string, organization: string): Option<ServiceError> {
    if id !in repositories then Some(RepositoryNotFound)
    else if repositories[id] != organization then Some(Forbidden)
    else None
  }

  /** The row a person's declaration becomes: no mark, manual origin, full confidence. */
  function Declared(organization: string, create: CreateRequest): Relationship {
    Row(Place(organization, create.source, create.target, create.kind), None, true,
        Content(create.caption, create.description, Manual, 1.0, create.metadata))
  }

  function CreateProblem(organization: string, repositories: map<string, string>,
                         create: CreateRequest): Option<ServiceError>
  {
    if create.kind.UnknownKind? || create.source == create.target then Some(Invalid)
    else
      var sourceProblem := RepositoryProblem(repositories, create.source, organization);
      if sourceProblem.Some? then sourceProblem
      else
        var targetProblem := RepositoryProblem(repositories, create.target, organization);
        if targetProblem.Some? then targetProblem
        else if !IsValid(Declared(organization, create)) then Some(Invalid)
        else None
  }

  function LookupProblem(rows: seq<Relationship>, organization: string, id: nat): Option<ServiceError> {
    if id >= |rows| || !rows[id].live then Some(RelationshipNotFound)
    else if rows[id].place.organization != organization then Some(Forbidden)
    else None
  }

  /** The edited row: requested fields replaced, and its mark dropped so that it becomes the person's own. */
  function Promoted(row: Relationship, update: UpdateRequest): Relationship {
    Row(if update.kind.Some? then row.place.(kind := update.kind.value) else row.place, None, true,
        Content(if update.caption.Some? then update.caption.value else row.content.caption,
                if update.description.Some? then update.description.value else row.content.description,
                row.content.origin,
                if update.confidence.Some? then update.confidence.value else row.content.confidence,
                if update.metadata.Some? then update.metadata.value else row.content.metadata))
  }

  function UpdateProblem(rows: seq<Relationship>, organization: string, id: nat,
                         update: UpdateRequest): (p: Option<ServiceError>)
    ensures p.None? ==> id < |rows|
  {
    var problem := LookupProblem(rows, organization, id);
    if problem.Some? then problem
    else if update.kind.Some? && update.kind.value.UnknownKind? then Some(Invalid)
    else if update.confidence.Some? && !(0.0 <= update.confidence.value <= 1.0) then Some(Invalid)
    else if !IsValid(Promoted(rows[id], update)) then Some(Invalid)
    else None
  }

  function Step(s: State, e: Event): State {
    match e
    case Run(organization, key, derived, startedAt, calls) =>
      s.(rows := Applied(s.rows, Hidden(s.suppressed, organization, key), organization, key, derived, startedAt, calls).0)
    case Create(organization, repositories, create) =>
      if CreateProblem(organization, repositories, create).Some? then s else s.(rows := s.rows + [Declared(organization, create)])
    case Update(organization, id, update) =>
      if UpdateProblem(s.rows, organization, id, update).Some? then s else s.(rows := s.rows[id := Promoted(s.rows[id], update)])
    case Delete(organization, id) =>
      if LookupProblem(s.rows, organization, id).Some? then s else s.(rows := s.rows[id := s.rows[id].(live := false)])
    case Suppress(x) =>
      if x.organization == "" || x.key == "" || x.fingerprint == "" then s else s.(suppressed := s.suppressed + {x})
  }

  /** How a run ends. */
  function OutcomeOf(s: State, e: Event): Outcome
    requires e.Run?
  {
    Applied(s.rows, Hidden(s.suppressed, e.organization, e.key), e.organization, e.key, e.derived, e.startedAt, e.calls).1
  }

  function Exec(s: State, events: seq<Event>): State {
    if events == [] then s else Step(Exec(s, events[..|events| - 1]), events[|events| - 1])
  }

  // ── the table and the service that write it ────────────────────────────────

  class Store {
    var rows: seq<Relationship>
    var suppressed: set<Suppression>

    ghost function Model(): State
      reads this
    {
      State(rows, suppressed)
    }

    constructor ()
      ensures Model() == State([], {})
    {
      rows, suppressed := [], {};
    }

    /** Writes one derived edge: onto its twin if the table has one, as a new row otherwise. */
    method UpsertDerivedRelationship(row: Relationship) returns (ok: bool)
      modifies `rows
      ensures ok == Storable(row)
      ensures rows == if ok then Put(old(rows), row, ByMark) else old(rows)
    {
      ok := Storable(row);
      if ok {
        var twin := Twin(rows, row, ByMark);
        match twin
        case Some(i) => rows := rows[i := Row(rows[i].place, row.mark, true, row.content)];
        case None => rows := rows + [row];
      }
    }

    method SweepDerivedRelationships(key: string, startedAt: int) returns (ok: bool)
      modifies `rows
      ensures ok == (key != "")
      ensures rows == if ok then Sweep(old(rows), AnyPlace, key, startedAt) else old(rows)
    {
      ok := key != "";
      if ok {
        rows := Sweep(rows, AnyPlace, key, startedAt);
      }
    }

    /** The write loop of a run: stops at the first write that fails. */
    method WriteEdges(edges: seq<DerivedEdge>, hidden: set<string>, organization: string, key: string, seenAt: int,
                      calls: nat)
      returns (upserted: nat, ok: bool)
      modifies `rows
      ensures var claims := Claims(edges, hidden, organization, key, seenAt);
              && upserted == Landed(claims, calls) && ok == (upserted == |claims|)
              && rows == PutAll(old(rows), claims[..upserted], ByMark)
    {
      upserted, ok := 0, true;
      var n := 0;
      while n < |edges|
        invariant n <= |edges|
        invariant upserted == |Claims(edges[..n], hidden, organization, key, seenAt)|
        invariant Landed(Claims(edges[..n], hidden, organization, key, seenAt), calls) == upserted
        invariant rows == PutAll(old(rows), Claims(edges[..n], hidden, organization, key, seenAt), ByMark)
      {
        ghost var done := Claims(edges[..n], hidden, organization, key, seenAt);
        ClaimsStep(edges, hidden, organization, key, seenAt, n);
        if Wanted(edges[n], hidden) {
          var row := RowFor(organization, key, seenAt, edges[n]);
          LandedStep(done, row, calls);
          ok := upserted < calls;
          if ok {
            ok := UpsertDerivedRelationship(row);
          }
          if !ok {
            LandedStops(done + [row], Claims(edges, hidden, organization, key, seenAt), calls);
            assert Claims(edges, hidden, organization, key, seenAt)[..upserted] == done;
            return;
          }
          PutAllStep(old(rows), done, row, ByMark);
          upserted := upserted + 1;
        }
        n := n + 1;
      }
      assert edges[..n] == edges;
      ghost var claims := Claims(edges, hidden, organization, key, seenAt);
      assert claims[..|claims|] == claims;
    }

    /** Writes the edges, then sweeps if the set was complete; `calls` storage calls succeed before one fails. */
    method ApplyEdges(organization: string, key: string, derived: DerivedSet, startedAt: int, calls: nat)
      returns (outcome: Outcome)
      modifies `rows
      ensures Model() == Step(old(Model()), Run(organization, key, derived, startedAt, calls))
      ensures outcome == Applied(old(rows), Hidden(suppressed, organization, key), organization, key, derived, startedAt, calls).1
    {
      if calls == 0 {
        return Failed(0);
      }
      var hidden := Hidden(suppressed, organization, key);
      var upserted, ok := WriteEdges(derived.edges, hidden, organization, key, startedAt + ONE_MILLISECOND, calls - 1);
      if !ok {
        return Failed(upserted);
      }
      if !derived.complete {
        return Done(upserted, true);
      }
      if upserted == calls - 1 {
        return Failed(upserted);
      }
      ok := SweepDerivedRelationships(key, startedAt);
      return if ok then Done(upserted, false) else Failed(upserted);
    }

    method CreateRelationship(organization: string, repositories: map<string, string>, create: CreateRequest)
      returns (result: Result<Relationship, ServiceError>)
      modifies `rows
      ensures Model() == Step(old(Model()), Create(organization, repositories, create))
      ensures result == var problem := CreateProblem(organization, repositories, create);
                        if problem.Some? then Failure(problem.value) else Success(Declared(organization, create))
    {
      var problem := CreateProblem(organization, repositories, create);
      if problem.Some? {
        return Failure(problem.value);
      }
      var row := Declared(organization, create);
      rows := rows + [row];
      return Success(row);
    }

    /** After an accepted edit the row is a declared one, whatever it was before. */
    method UpdateRelationship(organization: string, id: nat, update: UpdateRequest)
      returns (result: Result<Relationship, ServiceError>)
      modifies `rows
      ensures Model() == Step(old(Model()), Update(organization, id, update))
      ensures result == var problem := UpdateProblem(old(rows), organization, id, update);
                        if problem.Some? then Failure(problem.value) else Success(Promoted(old(rows)[id], update))
      ensures result.Success? ==> id < |rows| && rows[id] == result.value && rows[id].mark.None?
    {
      var problem := UpdateProblem(rows, organization, id, update);
      if problem.Some? {
        return Failure(problem.value);
      }
      rows := rows[id := Promoted(rows[id], update)];
      return Success(rows[id]);
    }

    method DeleteRelationship(organization: string, id: nat) returns (problem: Option<ServiceError>)
      modifies `rows
      ensures Model() == Step(old(Model()), Delete(organization, id))
      ensures problem == LookupProblem(old(rows), organization, id)
    {
      problem := LookupProblem(rows, organization, id);
      if problem.None? {
        rows := rows[id := rows[id].(live := false)];
      }
    }

    method CreateSuppression(suppression: Suppression) returns (ok: bool)
      modifies `suppressed
      ensures Model() == Step(old(Model()), Suppress(suppression))
      ensures ok <==> suppression.organization != "" && suppression.key != "" && suppression.fingerprint != ""
      ensures ok ==> suppression in suppressed
      ensures forall x :: x in suppressed <==> x in old(suppressed) || (ok && x == suppression)
    {
      ok := suppression.organization != "" && suppression.key != "" && suppression.fingerprint != "";
      if ok {
        suppressed := suppressed + {suppression};
      }
    }
  }

  lemma ClaimsStep(edges: seq<DerivedEdge>, hidden: set<string>, organization: string, key: string, seenAt: int, n: nat)
    requires n < |edges|
    ensures var done := Claims(edges[..n], hidden, organization, key, seenAt);
            var step := Claims(edges[..n + 1], hidden, organization, key, seenAt);
            && step == (if Wanted(edges[n], hidden) then done + [RowFor(organization, key, seenAt, edges[n])] else done)
            && step <= Claims(edges, hidden, organization, key, seenAt)
            && done <= Claims(edges, hidden, organization, key, seenAt)
  {
    assert edges[..n + 1][..n] == edges[..n];
    ClaimsExtend(edges, hidden, organization, key, seenAt, n);
    ClaimsExtend(edges, hidden, organization, key, seenAt, n + 1);
  }

  lemma LandedStep(done: seq<Relationship>, row: Relationship, calls: nat)
    ensures Landed(done, calls) == |done| ==>
              Landed(done + [row], calls) == if |done| < calls && Storable(row) then |done| + 1 else |done|
  {
    assert (done + [row])[..|done|] == done;
  }

  /** The writes of a prefix of the edges are a prefix of the writes. */
  lemma {:induction false} ClaimsExtend(edges: seq<DerivedEdge>, hidden: set<string>, organization: string,
                                        key: string, seenAt: int, n: nat)
    requires n <= |edges|
    ensures Claims(edges[..n], hidden, organization, key, seenAt) <= Claims(edges, hidden, organization, key, seenAt)
  {
    if n == |edges| {
      assert edges[..n] == edges;
    } else {
      ClaimsExtend(edges[..|edges| - 1], hidden, organization, key, seenAt, n);
      assert edges[..|edges| - 1][..n] == edges[..n];
    }
  }

  /** Once a write has failed, nothing after it lands. */
  lemma {:induction false} LandedStops(front: seq<Relationship>, claims: seq<Relationship>, calls: nat)
    requires front <= claims && Landed(front, calls) < |front|
    ensures Landed(claims, calls) == Landed(front, calls)
    decreases |claims|
  {
    if |front| < |claims| {
      LandedStops(front, claims[..|claims| - 1], calls);
    } else {
      assert front == claims;
    }
  }
}
