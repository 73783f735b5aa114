/** What people's own calls do to the relationship table, and whose rows they can reach. */
module PeopleEdits {
  import opened Wrappers
  import opened DerivedRows
  import opened Relationships
  import opened RelationshipStore
  import opened RelationshipRuns

  // ── declaring ──────────────────────────────────────────────────────────────

  /** The repository is known and belongs to the organization. */
  predicate Owns(repositories: map<string, string>, organization: string, id: string) {
    id in repositories && repositories[id] == organization
  }

  /** The row is live, nobody's but the person's, and says what the request asks for, from its source to its target. */
  predicate IsDeclared(row: Relationship, organization: string, create: CreateRequest) {
    && row.live && row.mark.None?
    && row.place.organization == organization && row.place.kind == create.kind
    && row.place.source == create.source && row.place.target == create.target
    && row.content.caption == create.caption && row.content.description == create.description
    && row.content.metadata == create.metadata && row.content.origin == Manual && row.content.confidence == 1.0
  }

  predicate MayDeclare(organization: string, repositories: map<string, string>, create: CreateRequest) {
    && organization != "" && create.source != "" && create.target != "" && create.source != create.target
    && !create.kind.UnknownKind?
    && Owns(repositories, organization, create.source) && Owns(repositories, organization, create.target)
  }

  /**
   * A declaration adds one row, saying what was asked for, exactly when the kind is known and the two ends are
   * different, existing repositories of the organization; otherwise it adds nothing, and no other row changes.
   */
  lemma DeclaringAddsOneRowIff(s: State, organization: string, repositories: map<string, string>, create: CreateRequest)
    ensures var after := Step(s, Create(organization, repositories, create));
            && after.suppressed == s.suppressed
            && (MayDeclare(organization, repositories, create) ==>
                  && |after.rows| == |s.rows| + 1 && after.rows[..|s.rows|] == s.rows
                  && IsDeclared(after.rows[|s.rows|], organization, create))
            && (!MayDeclare(organization, repositories, create) ==> after == s)
  {
  }

  /** Which refusal a declaration gets: its form is looked at first, then its source, then its target. */
  lemma DeclaringIsRefusedWith(organization: string, repositories: map<string, string>, create: CreateRequest)
    requires organization != "" && create.source != "" && create.target != ""
    ensures CreateProblem(organization, repositories, create)
            == if create.kind.UnknownKind? || create.source == create.target then Some(Invalid)
               else if create.source !in repositories then Some(RepositoryNotFound)
               else if repositories[create.source] != organization then Some(Forbidden)
               else if create.target !in repositories then Some(RepositoryNotFound)
               else if repositories[create.target] != organization then Some(Forbidden)
               else None
  {
  }

  // ── editing and deleting ───────────────────────────────────────────────────

  /** The caller's organization has the row, and it is not deleted. */
  predicate Reaches(s: State, organization: string, id: nat) {
    id < |s.rows| && s.rows[id].live && s.rows[id].place.organization == organization
  }

  function Chosen<T>(requested: Option<T>, before: T): T {
    if requested.Some? then requested.value else before
  }

  /**
   * The row after an edit: what was asked for, else as before; ends, organization and origin never move; it is a
   * person's.
   */
  predicate IsEdited(after: Relationship, before: Relationship, update: UpdateRequest) {
    && after.live && after.mark.None?
    && after.place.organization == before.place.organization
    && after.place.source == before.place.source && after.place.target == before.place.target
    && after.place.kind == Chosen(update.kind, before.place.kind)
    && after.content.caption == Chosen(update.caption, before.content.caption)
    && after.content.description == Chosen(update.description, before.content.description)
    && after.content.confidence == Chosen(update.confidence, before.content.confidence)
    && after.content.metadata == Chosen(update.metadata, before.content.metadata)
    && after.content.origin == before.content.origin
  }

  /**
   * An edit of a sound row goes through exactly when the row is the caller's and what is asked for is a known kind and
   * a confidence between nothing and certainty; then that row alone changes.
   */
  lemma EditingChangesOneRowIff(s: State, organization: string, id: nat, update: UpdateRequest)
    requires id < |s.rows| ==> Sound(s.rows[id])
    ensures var after := Step(s, Update(organization, id, update));
            var allowed := && Reaches(s, organization, id)
                           && (update.kind.Some? ==> !update.kind.value.UnknownKind?)
                           && (update.confidence.Some? ==> 0.0 <= update.confidence.value <= 1.0);
            && |after.rows| == |s.rows| && after.suppressed == s.suppressed
            && (!allowed ==> after == s)
            && (allowed ==> IsEdited(after.rows[id], s.rows[id], update))
            && forall i :: 0 <= i < |s.rows| && i != id ==> after.rows[i] == s.rows[i]
  {
  }

  /** A deletion soft-deletes the row exactly when it is the caller's, and changes nothing else. */
  lemma DeletingChangesOneRowIff(s: State, organization: string, id: nat)
    ensures var after := Step(s, Delete(organization, id));
            && |after.rows| == |s.rows| && after.suppressed == s.suppressed
            && (!Reaches(s, organization, id) ==> after == s)
            && (Reaches(s, organization, id) ==> after.rows[id] == s.rows[id].(live := false))
            && forall i :: 0 <= i < |s.rows| && i != id ==> after.rows[i] == s.rows[i]
  {
  }

  /** Somebody else's row is forbidden, and a missing or deleted one not found. */
  lemma ForeignRowsAreForbidden(s: State, organization: string, id: nat)
    ensures LookupProblem(s.rows, organization, id)
            == if Reaches(s, organization, id) then None
               else if id < |s.rows| && s.rows[id].live then Some(Forbidden) else Some(RelationshipNotFound)
  {
  }

  // ── organizations are isolated ─────────────────────────────────────────────

  /** The event acts for some other organization, and a run not under any of these keys. */
  predicate Elsewhere(e: Event, organization: string, keys: set<string>) {
    match e
    case Run(owner, key, _, _, _) => owner != organization && key !in keys
    case Create(owner, _, _) => owner != organization
    case Update(owner, _, _) => owner != organization
    case Delete(owner, _) => owner != organization
    case Suppress(_) => true
  }

  /** Every marked row of the organization is under one of these keys. */
  ghost predicate Keyed(rows: seq<Relationship>, organization: string, keys: set<string>) {
    forall i :: 0 <= i < |rows| && rows[i].place.organization == organization && rows[i].mark.Some? ==> rows[i].mark.value.key in keys
  }

  /** The organization's rows are the same ones, unchanged. */
  ghost predicate SameFor(a: seq<Relationship>, b: seq<Relationship>, organization: string) {
    && |a| <= |b|
    && (forall i :: 0 <= i < |a| && (a[i].place.organization == organization || b[i].place.organization == organization) ==> b[i] == a[i])
    && (forall i :: |a| <= i < |b| ==> b[i].place.organization != organization)
  }

  lemma StepElsewhere(s: State, e: Event, organization: string, keys: set<string>)
    requires Elsewhere(e, organization, keys) && Keyed(s.rows, organization, keys)
    ensures SameFor(s.rows, Step(s, e).rows, organization)
  {
    if e.Run? {
      RunElsewhere(s, e, organization, keys);
    }
  }

  lemma RunElsewhere(s: State, e: Event, organization: string, keys: set<string>)
    requires e.Run? && Elsewhere(e, organization, keys) && Keyed(s.rows, organization, keys)
    ensures SameFor(s.rows, Step(s, e).rows, organization)
  {
    hide Applied;
    var hidden, after := Hidden(s.suppressed, e.organization, e.key), Step(s, e).rows;
    RunKeepsRows(s, e);
    forall i | 0 <= i < |after|
      ensures after[i].place.organization == organization ==> i < |s.rows| && s.rows[i].place.organization == organization
    {
      RunRowComesFrom(s.rows, hidden, e.organization, e.key, e.derived, e.startedAt, e.calls, i);
    }
    forall i | 0 <= i < |s.rows| && s.rows[i].place.organization == organization
      ensures after[i] == s.rows[i]
    {
      RunKeepsOtherRows(s.rows, hidden, e.organization, e.key, e.derived, e.startedAt, e.calls, i);
    }
  }

  lemma RunKeepsRows(s: State, e: Event)
    requires e.Run?
    ensures |s.rows| <= |Step(s, e).rows|
  {
  }

  /**
   * Whatever is derived, declared, edited, deleted or suppressed for other organizations, under keys that are not its
   * own, an organization's rows stay as they are and it gets no new ones.
   */
  lemma {:induction false} OrganizationsAreIsolated(s: State, events: seq<Event>, organization: string,
                                                    keys: set<string>)
    requires Keyed(s.rows, organization, keys) && forall e :: e in events ==> Elsewhere(e, organization, keys)
    ensures SameFor(s.rows, Exec(s, events).rows, organization)
  {
    if events != [] {
      var front, last := events[..|events| - 1], events[|events| - 1];
      assert last in events;
      OrganizationsAreIsolated(s, front, organization, keys);
      hide Step;
      var before := Exec(s, front);
      StepElsewhere(before, last, organization, keys);
    }
  }

  /** A suppression hides exactly its own fingerprint, from runs of its own organization and key. */
  lemma SuppressionHidesExactly(s: State, x: Suppression, organization: string, key: string)
    requires x.organization != "" && x.key != "" && x.fingerprint != "" && key != ""
    ensures Hidden(Step(s, Suppress(x)).suppressed, organization, key)
            == Hidden(s.suppressed, organization, key) + if x.organization == organization && x.key == key then {x.fingerprint} else {}
  {
    var before, after := Hidden(s.suppressed, organization, key), Hidden(Step(s, Suppress(x)).suppressed,
                                                                         organization, key);
    assert forall y :: y in Step(s, Suppress(x)).suppressed <==> y in s.suppressed || y == x;
    forall f
      ensures f in after <==> f in before || (x.organization == organization && x.key == key && f == x.fingerprint)
    {
    }
  }

  // ── every row is sound ─────────────────────────────────────────────────────

  /** Two different repositories of an organization, a known kind and origin, and a confidence one can have. */
  predicate Sound(row: Relationship) {
    && row.place.organization != "" && row.place.source != "" && row.place.target != "" && row.place.source != row.place.target
    && !row.place.kind.UnknownKind? && !row.content.origin.UnknownOrigin?
    && 0.0 <= row.content.confidence && row.content.confidence <= 1.0
  }

  ghost predicate AllSound(rows: seq<Relationship>) {
    forall i :: 0 <= i < |rows| ==> Sound(rows[i])
  }

  lemma {:induction false} LandedAreStorable(claims: seq<Relationship>, calls: nat, k: nat)
    requires k < Landed(claims, calls)
    ensures Storable(claims[k])
    decreases |claims|
  {
    if claims != [] {
      var front := claims[..|claims| - 1];
      if k < |front| {
        LandedAreStorable(front, calls, k);
      }
    }
  }

  lemma BatchIsSound(rows: seq<Relationship>, claims: seq<Relationship>)
    requires AllSound(rows) && forall w :: w in claims ==> w.live && Sound(w)
    ensures AllSound(PutAll(rows, claims, ByMark))
  {
    var after := PutAll(rows, claims, ByMark);
    forall i | 0 <= i < |after|
      ensures Sound(after[i])
    {
      PutAllWritesNothingElse(rows, claims, ByMark, i);
    }
  }

  lemma RunIsSound(rows: seq<Relationship>, hidden: set<string>, organization: string, key: string, derived: DerivedSet,
                   startedAt: int, calls: nat)
    requires AllSound(rows)
    ensures AllSound(Applied(rows, hidden, organization, key, derived, startedAt, calls).0)
  {
    if calls > 0 {
      var claims := Claims(derived.edges, hidden, organization, key, startedAt + ONE_MILLISECOND);
      var n := Landed(claims, calls - 1);
      ClaimsCarryTheRun(derived.edges, hidden, organization, key, startedAt + ONE_MILLISECOND, n);
      forall w | w in claims[..n]
        ensures w.live && Sound(w)
      {
        var k :| 0 <= k < n && claims[..n][k] == w;
        LandedAreStorable(claims, calls - 1, k);
      }
      BatchIsSound(rows, claims[..n]);
    }
  }

  /** In every reachable state every row, whoever wrote it, is sound. */
  lemma {:induction false} EveryRowIsSound(events: seq<Event>)
    ensures AllSound(Exec(EMPTY, events).rows)
  {
    if events != [] {
      var front, last := events[..|events| - 1], events[|events| - 1];
      EveryRowIsSound(front);
      var before := Exec(EMPTY, front);
      if last.Run? {
        RunIsSound(before.rows, Hidden(before.suppressed, last.organization, last.key), last.organization, last.key,
                   last.derived, last.startedAt, last.calls);
      } else {
        PeopleKeepSound(before, last);
      }
    }
  }

  lemma PeopleKeepSound(s: State, e: Event)
    requires AllSound(s.rows) && !e.Run?
    ensures AllSound(Step(s, e).rows)
  {
  }
}
