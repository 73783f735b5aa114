/** What every interleaving of derivation runs, edits by people and suppressions keeps. */
module RelationshipRuns {
  import opened Wrappers
  import opened DerivedRows
  import opened Relationships
  import opened RelationshipStore

  const EMPTY := State([], {})

  // ── frame ──────────────────────────────────────────────────────────────────

  /** The only events that may change this row: a person editing or deleting it, or a run under its own key. */
  predicate Touches(e: Event, id: nat, row: Relationship) {
    match e
    case Run(_, key, _, _, _) => row.mark.Some? && row.mark.value.key == key
    case Update(_, target, _) => target == id
    case Delete(_, target) => target == id
    case _ => false
  }

  lemma RunKeepsOtherRows(rows: seq<Relationship>, hidden: set<string>, organization: string, key: string,
                          derived: DerivedSet, startedAt: int, calls: nat, id: nat)
    requires id < |rows|
    requires rows[id].mark.None? || rows[id].mark.value.key != key
    ensures var after := Applied(rows, hidden, organization, key, derived, startedAt, calls).0;
            id < |after| && after[id] == rows[id]
  {
    if calls > 0 {
      var seenAt := startedAt + ONE_MILLISECOND;
      var claims := Claims(derived.edges, hidden, organization, key, seenAt);
      ClaimsCarryTheRun(derived.edges, hidden, organization, key, seenAt, Landed(claims, calls - 1));
      PutAllFrame(rows, claims[..Landed(claims, calls - 1)], ByMark, id);
    }
  }

  /**
   * Frame over whole runs: a row nothing touches is the same afterwards. In particular a row without a
   * derivation key is changed only by people, and a run under one key changes no row under another.
   */
  lemma {:induction false} UntouchedRowsStay(s: State, events: seq<Event>, id: nat)
    requires id < |s.rows|
    requires forall e :: e in events ==> !Touches(e, id, s.rows[id])
    ensures id < |Exec(s, events).rows| && Exec(s, events).rows[id] == s.rows[id]
    decreases |events|
  {
    if events != [] {
      var front, last := events[..|events| - 1], events[|events| - 1];
      assert last in events;
      UntouchedRowsStay(s, front, id);
      var before := Exec(s, front);
      if last.Run? {
        RunKeepsOtherRows(before.rows, Hidden(before.suppressed, last.organization, last.key), last.organization,
                          last.key,
                          last.derived, last.startedAt, last.calls, id);
      }
    }
  }

  /** Once a person has edited a row, no run ever touches it again. */
  lemma PromotedRowBelongsToPeople(s: State, organization: string, id: nat, update: UpdateRequest, events: seq<Event>)
    requires UpdateProblem(s.rows, organization, id, update).None?
    requires forall e :: e in events ==> !(e.Update? && e.id == id) && !(e.Delete? && e.id == id)
    ensures var after := Exec(Step(s, Update(organization, id, update)), events);
            id < |after.rows| && after.rows[id] == Promoted(s.rows[id], update)
  {
    UntouchedRowsStay(Step(s, Update(organization, id, update)), events, id);
  }

  /** Changing a deriver's key retires nothing: rows of the previous key stay live until a person deletes them. */
  lemma OldKeyRowsOutliveAVersionBump(s: State, events: seq<Event>, id: nat)
    requires id < |s.rows| && s.rows[id].live && s.rows[id].mark.Some?
    requires forall e :: e in events ==>
                           && (e.Run? ==> e.key != s.rows[id].mark.value.key)
                           && !(e.Update? && e.id == id) && !(e.Delete? && e.id == id)
    ensures id < |Exec(s, events).rows| && Exec(s, events).rows[id].live
  {
    UntouchedRowsStay(s, events, id);
  }

  // ── identity ───────────────────────────────────────────────────────────────

  lemma StepKeepsUnique(s: State, e: Event)
    requires Unique(s.rows, ByMark)
    ensures Unique(Step(s, e).rows, ByMark)
  {
    if e.Run? {
      RunKeepsUnique(s.rows, Hidden(s.suppressed, e.organization, e.key), e.organization, e.key, e.derived,
                     e.startedAt, e.calls);
    } else {
      var r := Step(s, e).rows;
      forall i, j | 0 <= i < |r| && 0 <= j < |r| && Same(r[i], r[j], ByMark)
        ensures i == j
      {
        assert i < |s.rows| && j < |s.rows| && Same(s.rows[i], s.rows[j], ByMark);
      }
    }
  }

  /** In every reachable state at most one row, live or soft-deleted, has a given derived identity. */
  lemma {:induction false} IdentitiesAreUnique(s: State, events: seq<Event>)
    requires Unique(s.rows, ByMark)
    ensures Unique(Exec(s, events).rows, ByMark)
    decreases |events|
  {
    if events != [] {
      IdentitiesAreUnique(s, events[..|events| - 1]);
      StepKeepsUnique(Exec(s, events[..|events| - 1]), events[|events| - 1]);
    }
  }

  lemma StepKeepsIdentity(s: State, e: Event, id: nat)
    requires id < |s.rows| && s.rows[id].mark.Some? && !(e.Update? && e.id == id)
    ensures id < |Step(s, e).rows| && Same(Step(s, e).rows[id], s.rows[id], ByMark)
  {
    if e.Run? {
      RunKeepsIdentity(s.rows, Hidden(s.suppressed, e.organization, e.key), e.organization, e.key, e.derived,
                       e.startedAt, e.calls, id);
    }
  }

  lemma {:induction false} IdentityPersists(s: State, events: seq<Event>, id: nat)
    requires id < |s.rows| && s.rows[id].mark.Some?
    requires forall e :: e in events ==> !(e.Update? && e.id == id)
    ensures id < |Exec(s, events).rows| && Same(Exec(s, events).rows[id], s.rows[id], ByMark)
    decreases |events|
  {
    if events != [] {
      var front, last := events[..|events| - 1], events[|events| - 1];
      assert last in events;
      IdentityPersists(s, front, id);
      StepKeepsIdentity(Exec(s, front), last, id);
    }
  }

  /**
   * A fact that vanishes and returns keeps its row id: whatever runs, declarations, deletions and suppressions
   * happen, as long as nobody edits the row, the row that carries its identity is always the same one.
   */
  lemma VanishAndReturnKeepsId(history: seq<Event>, events: seq<Event>, id: nat, other: nat)
    requires var s := Exec(EMPTY, history); id < |s.rows| && s.rows[id].mark.Some?
    requires forall e :: e in events ==> !(e.Update? && e.id == id)
    requires other < |Exec(Exec(EMPTY, history), events).rows|
    requires Same(Exec(Exec(EMPTY, history), events).rows[other], Exec(EMPTY, history).rows[id], ByMark)
    ensures other == id
  {
    var s := Exec(EMPTY, history);
    IdentitiesAreUnique(EMPTY, history);
    IdentitiesAreUnique(s, events);
    IdentityPersists(s, events, id);
    var after := Exec(s, events);
    assert Same(after.rows[other], after.rows[id], ByMark);
  }

  // ── where a mark comes from ────────────────────────────────────────────────

  /** Some run of the row's key among the events was the last to observe it. */
  ghost predicate Stamped(row: Relationship, events: seq<Event>) {
    row.mark.Some? ==>
      exists e :: e in events && e.Run? && e.key == row.mark.value.key && row.mark.value.lastSeen == e.startedAt + ONE_MILLISECOND
  }

  lemma StepStamps(s: State, e: Event, events: seq<Event>)
    requires e in events && forall i :: 0 <= i < |s.rows| ==> Stamped(s.rows[i], events)
    ensures forall i :: 0 <= i < |Step(s, e).rows| ==> Stamped(Step(s, e).rows[i], events)
  {
    if e.Run? {
      var hidden, after := Hidden(s.suppressed, e.organization, e.key), Step(s, e).rows;
      forall i | 0 <= i < |after|
        ensures Stamped(after[i], events)
      {
        RunRowComesFrom(s.rows, hidden, e.organization, e.key, e.derived, e.startedAt, e.calls, i);
        assert i < |s.rows| ==> Stamped(s.rows[i], events);
      }
    } else {
      assert forall i :: 0 <= i < |Step(s, e).rows| && Step(s, e).rows[i].mark.Some? ==> i < |s.rows| && Step(s, e).rows[i].mark == s.rows[i].mark;
      assert forall i :: 0 <= i < |s.rows| ==> Stamped(s.rows[i], events);
    }
  }

  /** In every reachable state every derived row was stamped by a run of its key in the history. */
  lemma {:induction false} EveryRowIsStamped(events: seq<Event>)
    ensures forall i :: 0 <= i < |Exec(EMPTY, events).rows| ==> Stamped(Exec(EMPTY, events).rows[i], events)
  {
    if events != [] {
      var front, last := events[..|events| - 1], events[|events| - 1];
      EveryRowIsStamped(front);
      var before := Exec(EMPTY, front);
      forall i | 0 <= i < |before.rows|
        ensures Stamped(before.rows[i], events)
      {
        assert Stamped(before.rows[i], front);
      }
      StepStamps(before, last, events);
    }
  }

  /** Every run of the key in the history started more than a millisecond before this one. */
  ghost predicate Spaced(history: seq<Event>, key: string, startedAt: int) {
    forall e :: e in history && e.Run? && e.key == key ==> e.startedAt + ONE_MILLISECOND < startedAt
  }

  /** A run spaced from every earlier run of its key overlaps with none of them. */
  lemma SpacedRunsDoNotOverlap(history: seq<Event>, key: string, startedAt: int)
    requires Spaced(history, key, startedAt)
    ensures NoOverlap(Exec(EMPTY, history).rows, key, startedAt)
  {
    var rows := Exec(EMPTY, history).rows;
    EveryRowIsStamped(history);
    forall i | 0 <= i < |rows| && InScope(rows[i], AnyPlace, key)
      ensures rows[i].mark.value.lastSeen < startedAt
    {
      assert Stamped(rows[i], history);
    }
  }

  /**
   * Convergence over any history of runs, edits, deletions and suppressions: a complete run that finishes, started
   * more than a millisecond after every earlier run of its key, leaves live exactly what its edges ask for.
   */
  lemma ConvergesOverAnyHistory(history: seq<Event>, organization: string, key: string, derived: DerivedSet,
                                startedAt: int, calls: nat)
    requires Spaced(history, key, startedAt) && derived.complete
    requires var s := Exec(EMPTY, history);
             Applied(s.rows, Hidden(s.suppressed, organization, key), organization, key, derived, startedAt, calls).1.Done?
    ensures var s := Exec(EMPTY, history);
            var hidden := Hidden(s.suppressed, organization, key);
            var live := LiveIdentities(Step(s, Run(organization, key, derived, startedAt, calls)).rows, key);
            && live == WantedIdentities(derived.edges, hidden, organization)
            && Fingerprints(live) == set e | e in derived.edges && Wanted(e, hidden) :: e.fingerprint
  {
    var s := Exec(EMPTY, history);
    SpacedRunsDoNotOverlap(history, key, startedAt);
    Convergence(s.rows, Hidden(s.suppressed, organization, key), organization, key, derived, startedAt, calls);
  }

  /** A run leaves what is live under every other key exactly as it was. */
  lemma OtherKeysKeepLiveIdentities(s: State, e: Event, key: string)
    requires e.Run? && e.key != key
    ensures LiveIdentities(Step(s, e).rows, key) == LiveIdentities(s.rows, key)
  {
    var hidden, after := Hidden(s.suppressed, e.organization, e.key), Step(s, e).rows;
    forall i | 0 <= i < |s.rows| && InScope(s.rows[i], AnyPlace, key)
      ensures IdentityOf(s.rows[i]) in LiveIdentities(after, key)
    {
      RunKeepsOtherRows(s.rows, hidden, e.organization, e.key, e.derived, e.startedAt, e.calls, i);
      assert InScope(after[i], AnyPlace, key);
    }
    forall i | 0 <= i < |after| && InScope(after[i], AnyPlace, key)
      ensures IdentityOf(after[i]) in LiveIdentities(s.rows, key)
    {
      RunRowComesFrom(s.rows, hidden, e.organization, e.key, e.derived, e.startedAt, e.calls, i);
      assert InScope(s.rows[i], AnyPlace, key);
    }
  }

  // ── promotion ──────────────────────────────────────────────────────────────

  /** A second live row for the dependency the promoted row `id` used to be derived from. */
  ghost predicate Duplicated(rows: seq<Relationship>, old_: Relationship, id: nat) {
    exists j :: 0 <= j < |rows| && j != id && rows[j].live && Same(rows[j], old_, ByMark)
  }

  /**
   * Promoting a derived row does not keep the next run from inserting a derived row beside it. After the
   * promotion of a row, a run of its key that finishes leaves such a duplicate if and only if the run's edges
   * still contain the dependency and it is not suppressed.
   */
  lemma DuplicateBesidePromotedIff(history: seq<Event>, id: nat, update: UpdateRequest,
                                   derived: DerivedSet, startedAt: int, calls: nat)
    requires var s := Exec(EMPTY, history); id < |s.rows| && s.rows[id].mark.Some?
    requires var s := Exec(EMPTY, history); UpdateProblem(s.rows, s.rows[id].place.organization, id, update).None?
    requires var s := Exec(EMPTY, history);
             var row := s.rows[id];
             Applied(Step(s, Update(row.place.organization, id, update)).rows,
                     Hidden(s.suppressed, row.place.organization, row.mark.value.key),
                     row.place.organization, row.mark.value.key, derived, startedAt, calls).1.Done?
    ensures var s := Exec(EMPTY, history);
            var row := s.rows[id];
            var hidden := Hidden(s.suppressed, row.place.organization, row.mark.value.key);
            var after := Exec(s, [Update(row.place.organization, id, update),
                                  Run(row.place.organization, row.mark.value.key, derived, startedAt, calls)]);
            Duplicated(after.rows, row, id) <==> IdentityOf(row) in WantedIdentities(derived.edges, hidden, row.place.organization)
  {
    var s := Exec(EMPTY, history);
    var row := s.rows[id];
    var organization, key := row.place.organization, row.mark.value.key;
    var hidden := Hidden(s.suppressed, organization, key);
    IdentitiesAreUnique(EMPTY, history);
    var edit, run := Update(organization, id, update), Run(organization, key, derived, startedAt, calls);
    var promoted := Step(s, edit);
    assert [edit, run][..1] == [edit] && [edit][..0] == [];
    assert Exec(s, [edit]) == Step(Exec(s, []), edit);
    assert Exec(s, [edit, run]) == Step(promoted, run);
    var after := Exec(s, [edit, run]);
    assert Unknown(promoted.rows, row) by {
      assert forall j :: 0 <= j < |s.rows| && j != id ==> !Same(s.rows[j], s.rows[id], ByMark);
    }
    FreshIdentityAppearsIff(promoted.rows, hidden, organization, key, derived, startedAt, calls, row);
    RunKeepsOtherRows(promoted.rows, hidden, organization, key, derived, startedAt, calls, id);
  }

  // One dependency, derived, renamed by a person, and derived again.

  const DEPENDENCY := DerivedEdge("a", "b", Library, Manifest, 1.0, "lib", "fingerprint", Untyped(""))

  const RENAME := Update("org", 0, UpdateRequest(None, Some("ours"), None, None, None))

  function RunAt(startedAt: int): Event {
    Run("org", "key", DerivedSet([DEPENDENCY], true, []), startedAt, 3)
  }

  lemma OneEdgeIsClaimed(seenAt: int)
    ensures Claims([DEPENDENCY], {}, "org", "key", seenAt) == [RowFor("org", "key", seenAt, DEPENDENCY)]
  {
    assert [DEPENDENCY][..0] == [] && Wanted(DEPENDENCY, {});
  }

  lemma OneClaimLands(row: Relationship)
    requires Storable(row)
    ensures Landed([row], 2) == 1
  {
    assert [row][..0] == [];
  }

  lemma OneClaimIsPut(rows: seq<Relationship>, row: Relationship)
    requires forall i :: 0 <= i < |rows| ==> rows[i].mark.None?
    ensures PutAll(rows, [row], ByMark) == rows + [row]
  {
    assert [row][..0] == [];
    assert PutAll(rows, [], ByMark) == rows;
  }

  lemma NothingIsSwept(rows: seq<Relationship>, row: Relationship, key: string, startedAt: int)
    requires forall i :: 0 <= i < |rows| ==> rows[i].mark.None?
    requires row.mark.Some? && row.mark.value.lastSeen >= startedAt
    ensures Sweep(rows + [row], AnyPlace, key, startedAt) == rows + [row]
  {
    assert forall i :: 0 <= i < |rows + [row]| ==> !Stale((rows + [row])[i], AnyPlace, key, startedAt);
  }

  lemma OneEdgeIsApplied(rows: seq<Relationship>, startedAt: int)
    requires forall i :: 0 <= i < |rows| ==> rows[i].mark.None?
    ensures Applied(rows, {}, "org", "key", DerivedSet([DEPENDENCY], true, []), startedAt, 3).0
            == rows + [RowFor("org", "key", startedAt + ONE_MILLISECOND, DEPENDENCY)]
  {
    var row := RowFor("org", "key", startedAt + ONE_MILLISECOND, DEPENDENCY);
    OneEdgeIsClaimed(startedAt + ONE_MILLISECOND);
    OneClaimLands(row);
    WholePrefix([row]);
    OneClaimIsPut(rows, row);
    NothingIsSwept(rows, row, "key", startedAt);
  }

  const DERIVED := State([] + [RowFor("org", "key", 0 + ONE_MILLISECOND, DEPENDENCY)], {})

  const RENAMED := State(DERIVED.rows[0 := Promoted(DERIVED.rows[0], RENAME.update)], {})

  const DUPLICATED := State(RENAMED.rows + [RowFor("org", "key", 60000000 + ONE_MILLISECOND, DEPENDENCY)], {})

  lemma RunDerives(rows: seq<Relationship>, startedAt: int)
    requires forall i :: 0 <= i < |rows| ==> rows[i].mark.None?
    ensures Step(State(rows, {}), RunAt(startedAt)) == State(rows + [RowFor("org", "key", startedAt + ONE_MILLISECOND, DEPENDENCY)], {})
  {
    OneEdgeIsApplied(rows, startedAt);
    assert Hidden({}, "org", "key") == {};
  }

  lemma EditPromotes()
    ensures Step(DERIVED, RENAME) == RENAMED && RENAMED.rows[0].mark.None?
  {
    assert UpdateProblem(DERIVED.rows, "org", 0, RENAME.update).None?;
  }

  lemma FirstRunDerives()
    ensures Step(EMPTY, RunAt(0)) == DERIVED
  {
    RunDerives([], 0);
  }

  lemma NextRunDuplicates()
    ensures Step(RENAMED, RunAt(60000000)) == DUPLICATED
  {
    EditPromotes();
    RunDerives(RENAMED.rows, 60000000);
  }

  lemma ThreeStepsDuplicate()
    ensures Exec(EMPTY, [RunAt(0), RENAME, RunAt(60000000)]) == DUPLICATED
  {
    ExecThree(EMPTY, RunAt(0), RENAME, RunAt(60000000));
    FirstRunDerives();
    EditPromotes();
    NextRunDuplicates();
  }

  /** Two live rows for one dependency: the person's, and the one the next run inserts beside it. */
  lemma PromotedThenDuplicated()
    ensures Exec(EMPTY, [RunAt(0), RENAME, RunAt(60000000)]) == DUPLICATED
    ensures |DUPLICATED.rows| == 2 && DUPLICATED.rows[0].live && DUPLICATED.rows[1].live
    ensures DUPLICATED.rows[0].place == DUPLICATED.rows[1].place
    ensures DUPLICATED.rows[0].mark.None? && DUPLICATED.rows[1].mark.Some?
  {
    ThreeStepsDuplicate();
  }

  lemma ExecThree(s: State, a: Event, b: Event, c: Event)
    ensures Exec(s, [a, b, c]) == Step(Step(Step(s, a), b), c)
  {
    assert [a, b, c][..2] == [a, b] && [a, b][..1] == [a] && [a][..0] == [];
    assert Exec(s, [a]) == Step(Exec(s, []), a);
    assert Exec(s, [a, b]) == Step(Exec(s, [a]), b);
  }

  /** No row carries the identity of `row`. */
  ghost predicate Unknown(rows: seq<Relationship>, row: Relationship) {
    forall j :: 0 <= j < |rows| ==> !Same(rows[j], row, ByMark)
  }

  ghost predicate Appears(rows: seq<Relationship>, row: Relationship) {
    exists j :: 0 <= j < |rows| && rows[j].live && Same(rows[j], row, ByMark)
  }

  lemma WhatAppearsIsWanted(rows: seq<Relationship>, hidden: set<string>, organization: string, key: string,
                            derived: DerivedSet, seenAt: int, row: Relationship)
    requires row.mark.Some? && row.mark.value.key == key && row.place.organization == organization && Unknown(rows, row)
    requires Appears(PutAll(rows, Claims(derived.edges, hidden, organization, key, seenAt), ByMark), row)
    ensures IdentityOf(row) in WantedIdentities(derived.edges, hidden, organization)
  {
    var claims := Claims(derived.edges, hidden, organization, key, seenAt);
    var written := PutAll(rows, claims, ByMark);
    ClaimsAreTheWantedEdges(derived.edges, hidden, organization, key, seenAt);
    var j :| 0 <= j < |written| && written[j].live && Same(written[j], row, ByMark);
    PutAllWritesNothingElse(rows, claims, ByMark, j);
    var w :| w in claims && Holds(written[j], w, ByMark);
    var e :| e in derived.edges && Wanted(e, hidden) && w == RowFor(organization, key, seenAt, e);
  }

  lemma WhatIsWantedAppears(rows: seq<Relationship>, hidden: set<string>, organization: string, key: string,
                            derived: DerivedSet, seenAt: int, row: Relationship)
    requires row.mark.Some? && row.mark.value.key == key && row.place.organization == organization
    requires IdentityOf(row) in WantedIdentities(derived.edges, hidden, organization)
    ensures Appears(PutAll(rows, Claims(derived.edges, hidden, organization, key, seenAt), ByMark), row)
  {
    var claims := Claims(derived.edges, hidden, organization, key, seenAt);
    var written := PutAll(rows, claims, ByMark);
    ClaimsAreTheWantedEdges(derived.edges, hidden, organization, key, seenAt);
    var e :| e in derived.edges && Wanted(e, hidden)
             && IdentityOf(row) == Identity(Place(organization, e.source, e.target, e.kind), e.fingerprint);
    var w := RowFor(organization, key, seenAt, e);
    assert w in claims;
    PutAllCovers(rows, claims, ByMark, seenAt);
    var j :| 0 <= j < |written| && written[j].live && Same(written[j], w, ByMark) && SeenSince(written[j], ByMark, seenAt);
    assert Same(written[j], row, ByMark);
  }

  /** A sweep spares the rows this run just wrote. */
  lemma SweepKeepsWhatAppeared(rows: seq<Relationship>, key: string, startedAt: int, row: Relationship)
    requires forall j :: 0 <= j < |rows| && Same(rows[j], row, ByMark) ==> !Stale(rows[j], AnyPlace, key, startedAt)
    ensures Appears(Sweep(rows, AnyPlace, key, startedAt), row) <==> Appears(rows, row)
  {
    var after := Sweep(rows, AnyPlace, key, startedAt);
    assert forall j :: 0 <= j < |rows| ==> (Same(after[j], row, ByMark) <==> Same(rows[j], row, ByMark));
  }

  /** Rows of an identity nobody carried before were written by this run, so none is stale. */
  lemma NewRowsAreFresh(rows: seq<Relationship>, hidden: set<string>, organization: string, key: string,
                        derived: DerivedSet, startedAt: int, row: Relationship, j: nat)
    requires Unknown(rows, row)
    requires var written := PutAll(rows,
                                   Claims(derived.edges, hidden, organization, key, startedAt + ONE_MILLISECOND), ByMark);
             j < |written| && Same(written[j], row, ByMark)
    ensures !Stale(PutAll(rows, Claims(derived.edges, hidden, organization, key, startedAt + ONE_MILLISECOND), ByMark)[j], AnyPlace, key, startedAt)
  {
    var claims := Claims(derived.edges, hidden, organization, key, startedAt + ONE_MILLISECOND);
    ClaimsCarryTheRun(derived.edges, hidden, organization, key, startedAt + ONE_MILLISECOND, |claims|);
    WholePrefix(claims);
    PutAllWritesNothingElse(rows, claims, ByMark, j);
  }

  /** A run that finishes makes an identity no row carries live exactly when one of its wanted edges has it. */
  lemma FreshIdentityAppearsIff(rows: seq<Relationship>, hidden: set<string>, organization: string, key: string,
                                derived: DerivedSet, startedAt: int, calls: nat, row: Relationship)
    requires row.mark.Some? && row.mark.value.key == key && row.place.organization == organization && Unknown(rows, row)
    requires Applied(rows, hidden, organization, key, derived, startedAt, calls).1.Done?
    ensures Appears(Applied(rows, hidden, organization, key, derived, startedAt, calls).0, row)
            <==> IdentityOf(row) in WantedIdentities(derived.edges, hidden, organization)
  {
    var seenAt := startedAt + ONE_MILLISECOND;
    var claims := Claims(derived.edges, hidden, organization, key, seenAt);
    var written := PutAll(rows, claims, ByMark);
    WholePrefix(claims);
    assert Applied(rows, hidden, organization, key, derived, startedAt, calls).0
           == if derived.complete then Sweep(written, AnyPlace, key, startedAt) else written;
    forall j | 0 <= j < |written| && Same(written[j], row, ByMark) {
      NewRowsAreFresh(rows, hidden, organization, key, derived, startedAt, row, j);
    }
    SweepKeepsWhatAppeared(written, key, startedAt, row);
    if Appears(written, row) {
      WhatAppearsIsWanted(rows, hidden, organization, key, derived, seenAt, row);
    }
    if IdentityOf(row) in WantedIdentities(derived.edges, hidden, organization) {
      WhatIsWantedAppears(rows, hidden, organization, key, derived, seenAt, row);
    }
  }

  // ── suppression ────────────────────────────────────────────────────────────

  /** No live row carries this key and fingerprint. */
  ghost predicate Gone(rows: seq<Relationship>, key: string, fingerprint: string) {
    forall i :: 0 <= i < |rows| && InScope(rows[i], AnyPlace, key) ==> rows[i].mark.value.fingerprint != fingerprint
  }

  lemma StepKeepsGone(s: State, e: Event, x: Suppression)
    requires x in s.suppressed && Gone(s.rows, x.key, x.fingerprint)
    requires e.Run? && e.key == x.key ==> e.organization == x.organization
    ensures x in Step(s, e).suppressed && Gone(Step(s, e).rows, x.key, x.fingerprint)
  {
    if e.Run? {
      var hidden, after := Hidden(s.suppressed, e.organization, e.key), Step(s, e).rows;
      forall i | 0 <= i < |after| && InScope(after[i], AnyPlace, x.key)
        ensures after[i].mark.value.fingerprint != x.fingerprint
      {
        RunRowComesFrom(s.rows, hidden, e.organization, e.key, e.derived, e.startedAt, e.calls, i);
        assert e.key == x.key ==> x.fingerprint in hidden;
      }
    }
  }

  /**
   * A suppressed fact that has gone stays gone: no sequence of events brings it back, where every run under
   * the key is a run for the suppression's organization (the key names the organization).
   */
  lemma {:induction false} SuppressedStaysGone(s: State, events: seq<Event>, x: Suppression)
    requires x in s.suppressed && Gone(s.rows, x.key, x.fingerprint)
    requires forall e :: e in events && e.Run? && e.key == x.key ==> e.organization == x.organization
    ensures x in Exec(s, events).suppressed && Gone(Exec(s, events).rows, x.key, x.fingerprint)
    decreases |events|
  {
    if events != [] {
      var front, last := events[..|events| - 1], events[|events| - 1];
      assert last in events;
      SuppressedStaysGone(s, front, x);
      StepKeepsGone(Exec(s, front), last, x);
    }
  }

  /** Suppressing a fact and letting one complete, non-overlapping run of its key finish removes it for good. */
  lemma SuppressionIsDurable(s: State, x: Suppression, derived: DerivedSet, startedAt: int, calls: nat,
                             later: seq<Event>)
    requires x in s.suppressed && derived.complete
    requires Applied(s.rows, Hidden(s.suppressed, x.organization, x.key), x.organization, x.key, derived, startedAt, calls).1.Done?
    requires NoOverlap(s.rows, x.key, startedAt)
    requires forall e :: e in later && e.Run? && e.key == x.key ==> e.organization == x.organization
    ensures Gone(Exec(Step(s, Run(x.organization, x.key, derived, startedAt, calls)), later).rows, x.key, x.fingerprint)
  {
    var hidden := Hidden(s.suppressed, x.organization, x.key);
    var after := Step(s, Run(x.organization, x.key, derived, startedAt, calls));
    Convergence(s.rows, hidden, x.organization, x.key, derived, startedAt, calls);
    forall i | 0 <= i < |after.rows| && InScope(after.rows[i], AnyPlace, x.key)
      ensures after.rows[i].mark.value.fingerprint != x.fingerprint
    {
      assert IdentityOf(after.rows[i]) in LiveIdentities(after.rows, x.key);
      assert x.fingerprint in hidden;
    }
    SuppressedStaysGone(after, later, x);
  }

  /** Nothing withdraws a suppression. */
  lemma {:induction false} SuppressionsStay(s: State, events: seq<Event>)
    ensures s.suppressed <= Exec(s, events).suppressed
  {
    if events != [] {
      SuppressionsStay(s, events[..|events| - 1]);
    }
  }
}
