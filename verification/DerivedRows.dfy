/**
 * Soft-deleting tables that derivation runs reconcile by mark and sweep.
 *
 * A table is a sequence of rows; a row's id is its position, so insertion order is `created_at` order
 * and no row is ever removed physically. A row a person declared carries no mark; a derived row carries
 * its derivation key, the fingerprint of the fact behind it and the moment a run last observed it.
 */
module DerivedRows {
  import opened Wrappers

  datatype Mark = Mark(key: string, fingerprint: string, lastSeen: int)

  datatype Row<P, C> = Row(place: P, mark: Option<Mark>, live: bool, content: C)

  /** How an upsert finds the row that already stands for a fresh one, and what it does to its mark. */
  datatype Policy = ByMark | ByPlace | ByPlaceKeepingMark

  /** `row` is the row an upsert of `claim` would have to reuse. */
  predicate Same<P(==), C>(row: Row<P, C>, claim: Row<P, C>, policy: Policy) {
    && row.place == claim.place
    && (policy == ByMark ==>
          && row.mark.Some? && claim.mark.Some?
          && row.mark.value.key == claim.mark.value.key
          && row.mark.value.fingerprint == claim.mark.value.fingerprint)
  }

  /** Newest row standing for `claim`, among the live ones or among all. */
  function Newest<P(==), C>(rows: seq<Row<P, C>>, claim: Row<P, C>, policy: Policy, liveOnly: bool): (t: Option<nat>)
    ensures t.Some? ==>
              && t.value < |rows| && Same(rows[t.value], claim, policy)
              && (liveOnly ==> rows[t.value].live)
              && forall i :: t.value < i < |rows| ==> !(Same(rows[i], claim, policy) && (liveOnly ==> rows[i].live))
    ensures t.None? ==>
              forall i :: 0 <= i < |rows| ==> !(Same(rows[i], claim, policy) && (liveOnly ==> rows[i].live))
  {
    if rows == [] then None
    else
      var last := |rows| - 1;
      if Same(rows[last], claim, policy) && (liveOnly ==> rows[last].live) then Some(last)
      else Newest(rows[..last], claim, policy, liveOnly)
  }

  /** The row an upsert writes to, if any has its identity: the last live one, or else the last of all. */
  function Twin<P(==), C>(rows: seq<Row<P, C>>, claim: Row<P, C>, policy: Policy): (t: Option<nat>)
    ensures t.Some? ==> t.value < |rows| && Same(rows[t.value], claim, policy)
    ensures t.None? ==> forall i :: 0 <= i < |rows| ==> !Same(rows[i], claim, policy)
  {
    var alive := Newest(rows, claim, policy, true);
    if alive.Some? then alive else Newest(rows, claim, policy, false)
  }

  function Revived<P, C>(row: Row<P, C>, claim: Row<P, C>, policy: Policy): Row<P, C> {
    var mark :=
      if policy != ByPlaceKeepingMark then claim.mark
      else if row.mark.Some? && claim.mark.Some? then Some(row.mark.value.(lastSeen := claim.mark.value.lastSeen))
      else row.mark;
    Row(row.place, mark, true, claim.content)
  }

  /** The id an upsert of `claim` ends up with. */
  function PutIndex<P(==), C>(rows: seq<Row<P, C>>, claim: Row<P, C>, policy: Policy): (i: nat) {
    var twin := Twin(rows, claim, policy);
    if twin.Some? then twin.value else |rows|
  }

  /** Look up the twin, then revive and refresh it, or insert a new row. */
  function Put<P(==), C>(rows: seq<Row<P, C>>, claim: Row<P, C>, policy: Policy): (r: seq<Row<P, C>>)
    ensures |rows| <= |r| <= |rows| + 1
    ensures PutIndex(rows, claim, policy) < |r|
    ensures forall i :: 0 <= i < |rows| && i != PutIndex(rows, claim, policy) ==> r[i] == rows[i]
  {
    var twin := Twin(rows, claim, policy);
    if twin.Some? then rows[twin.value := Revived(rows[twin.value], claim, policy)] else rows + [claim]
  }

  function PutAll<P(==), C>(rows: seq<Row<P, C>>, claims: seq<Row<P, C>>, policy: Policy): (r: seq<Row<P, C>>)
    ensures |rows| <= |r|
  {
    if claims == [] then rows
    else Put(PutAll(rows, claims[..|claims| - 1], policy), claims[|claims| - 1], policy)
  }

  lemma PutAllStep<P, C>(rows: seq<Row<P, C>>, done: seq<Row<P, C>>, claim: Row<P, C>, policy: Policy)
    ensures PutAll(rows, done + [claim], policy) == Put(PutAll(rows, done, policy), claim, policy)
  {
    assert (done + [claim])[..|done|] == done;
  }

  /** A live derived row of this key, in this part of the table. */
  predicate InScope<P, C>(row: Row<P, C>, scope: P -> bool, key: string) {
    row.live && row.mark.Some? && scope(row.place) && row.mark.value.key == key
  }

  /** A row in scope that no run has observed since `startedAt`. */
  predicate Stale<P, C>(row: Row<P, C>, scope: P -> bool, key: string, startedAt: int) {
    InScope(row, scope, key) && row.mark.value.lastSeen < startedAt
  }

  /** A row in scope that some run observed at or after `startedAt`. */
  predicate Recent<P, C>(row: Row<P, C>, scope: P -> bool, key: string, startedAt: int) {
    InScope(row, scope, key) && row.mark.value.lastSeen >= startedAt
  }

  function Sweep<P, C>(rows: seq<Row<P, C>>, scope: P -> bool, key: string, startedAt: int): (r: seq<Row<P, C>>)
    ensures |r| == |rows|
    ensures forall i :: 0 <= i < |rows| ==>
                          r[i] == if Stale(rows[i], scope, key, startedAt) then rows[i].(live := false) else rows[i]
  {
    seq(|rows|, i requires 0 <= i < |rows| =>
      if Stale(rows[i], scope, key, startedAt) then rows[i].(live := false) else rows[i])
  }

  /** What one reconciliation does to a table: the first `landed` writes, and the sweep if it is reached. */
  function Reconciled<P(==), C>(rows: seq<Row<P, C>>, claims: seq<Row<P, C>>, landed: nat, sweeps: bool, policy: Policy,
                                scope: P -> bool, key: string, startedAt: int): (r: seq<Row<P, C>>)
    requires landed <= |claims|
  {
    var written := PutAll(rows, claims[..landed], policy);
    if sweeps then Sweep(written, scope, key, startedAt) else written
  }

  // ── what an upsert and a batch of upserts establish ────────────────────────

  /** `row` holds what `claim` asked for. */
  predicate Holds<P(==), C(==)>(row: Row<P, C>, claim: Row<P, C>, policy: Policy) {
    && row.live && row.place == claim.place && row.content == claim.content
    && (policy != ByPlaceKeepingMark ==> row.mark == claim.mark)
  }

  /** Some live row stands for `claim`, observed at least as late as `seen`. */
  ghost predicate Covered<P, C>(rows: seq<Row<P, C>>, claim: Row<P, C>, policy: Policy, seen: int) {
    exists i :: 0 <= i < |rows| && rows[i].live && Same(rows[i], claim, policy) && SeenSince(rows[i], policy, seen)
  }

  predicate SeenSince<P, C>(row: Row<P, C>, policy: Policy, seen: int) {
    policy != ByPlaceKeepingMark ==> row.mark.Some? && row.mark.value.lastSeen >= seen
  }

  /** No two rows, live or soft-deleted, stand for the same thing. */
  ghost predicate Unique<P, C>(rows: seq<Row<P, C>>, policy: Policy) {
    forall i, j :: 0 <= i < |rows| && 0 <= j < |rows| && Same(rows[i], rows[j], policy) ==> i == j
  }

  /** An upsert never changes which thing a row stands for, so ids stay stable. */
  lemma PutKeepsIdentity<P, C>(rows: seq<Row<P, C>>, claim: Row<P, C>, policy: Policy, i: nat)
    requires i < |rows|
    ensures Put(rows, claim, policy)[i].place == rows[i].place
    ensures policy == ByMark && rows[i].mark.Some? ==> Same(Put(rows, claim, policy)[i], rows[i], policy)
    ensures !Same(rows[i], claim, policy) ==> Put(rows, claim, policy)[i] == rows[i]
    ensures rows[i].live ==> Put(rows, claim, policy)[i].live
  {
  }

  lemma PutEstablishes<P, C>(rows: seq<Row<P, C>>, claim: Row<P, C>, policy: Policy)
    requires claim.live
    ensures Holds(Put(rows, claim, policy)[PutIndex(rows, claim, policy)], claim, policy)
  {
  }

  lemma PutKeepsCovered<P, C>(rows: seq<Row<P, C>>, claim: Row<P, C>, policy: Policy, other: Row<P, C>, seen: int)
    requires Covered(rows, other, policy, seen)
    requires SeenSince(claim, policy, seen)
    ensures Covered(Put(rows, claim, policy), other, policy, seen)
  {
    var i :| 0 <= i < |rows| && rows[i].live && Same(rows[i], other, policy) && SeenSince(rows[i], policy, seen);
    PutKeepsIdentity(rows, claim, policy, i);
    var r := Put(rows, claim, policy);
    assert r[i].live && Same(r[i], other, policy) && SeenSince(r[i], policy, seen);
  }

  lemma PutKeepsUnique<P, C>(rows: seq<Row<P, C>>, claim: Row<P, C>, policy: Policy)
    requires Unique(rows, policy)
    ensures Unique(Put(rows, claim, policy), policy)
  {
    var r := Put(rows, claim, policy);
    forall i, j | 0 <= i < |r| && 0 <= j < |r| && Same(r[i], r[j], policy)
      ensures i == j
    {
      if i < |rows| && j < |rows| {
        assert Same(rows[i], rows[j], policy);
      }
    }
  }

  /** Every row after a batch is an untouched old row or holds one of the writes. */
  lemma {:induction false} PutAllWritesNothingElse<P, C>(rows: seq<Row<P, C>>, claims: seq<Row<P, C>>, policy: Policy,
                                                         i: nat)
    requires i < |PutAll(rows, claims, policy)|
    requires forall w :: w in claims ==> w.live
    ensures || (i < |rows| && PutAll(rows, claims, policy)[i] == rows[i])
            || exists w :: w in claims && Holds(PutAll(rows, claims, policy)[i], w, policy)
    decreases |claims|
  {
    if claims != [] {
      var front, w := claims[..|claims| - 1], claims[|claims| - 1];
      var before := PutAll(rows, front, policy);
      PutEstablishes(before, w, policy);
      if i != PutIndex(before, w, policy) {
        PutAllWritesNothingElse(rows, front, policy, i);
      }
    }
  }

  /** Every write of a batch is covered afterwards, whatever the old rows and however the writes collide. */
  lemma {:induction false} PutAllCovers<P, C>(rows: seq<Row<P, C>>, claims: seq<Row<P, C>>, policy: Policy, seen: int)
    requires forall w :: w in claims ==> w.live && w.mark.Some? && w.mark.value.lastSeen >= seen
    ensures forall w :: w in claims ==> Covered(PutAll(rows, claims, policy), w, policy, seen)
    decreases |claims|
  {
    if claims != [] {
      var front, last := claims[..|claims| - 1], claims[|claims| - 1];
      var before := PutAll(rows, front, policy);
      PutAllCovers(rows, front, policy, seen);
      forall w | w in claims
        ensures Covered(PutAll(rows, claims, policy), w, policy, seen)
      {
        if w in front {
          PutKeepsCovered(before, last, policy, w, seen);
        } else {
          PutEstablishes(before, last, policy);
          var at := PutIndex(before, last, policy);
          assert Put(before, last, policy)[at].live;
        }
      }
    }
  }

  lemma {:induction false} PutAllKeepsCovered<P, C>(rows: seq<Row<P, C>>, claims: seq<Row<P, C>>, policy: Policy,
                                                    other: Row<P, C>, seen: int)
    requires Covered(rows, other, policy, seen)
    requires forall w :: w in claims ==> SeenSince(w, policy, seen)
    ensures Covered(PutAll(rows, claims, policy), other, policy, seen)
    decreases |claims|
  {
    if claims != [] {
      var front, last := claims[..|claims| - 1], claims[|claims| - 1];
      PutAllKeepsCovered(rows, front, policy, other, seen);
      PutKeepsCovered(PutAll(rows, front, policy), last, policy, other, seen);
    }
  }

  lemma {:induction false} PutAllKeepsUnique<P, C>(rows: seq<Row<P, C>>, claims: seq<Row<P, C>>, policy: Policy)
    requires Unique(rows, policy)
    ensures Unique(PutAll(rows, claims, policy), policy)
    decreases |claims|
  {
    if claims != [] {
      PutAllKeepsUnique(rows, claims[..|claims| - 1], policy);
      PutKeepsUnique(PutAll(rows, claims[..|claims| - 1], policy), claims[|claims| - 1], policy);
    }
  }

  /** A row keeps what it holds through an upsert of anything else. */
  lemma PutKeepsHeld<P, C>(rows: seq<Row<P, C>>, claim: Row<P, C>, policy: Policy, held: Row<P, C>, i: nat)
    requires i < |rows| && Holds(rows[i], held, policy) && !Same(claim, held, policy)
    ensures Holds(Put(rows, claim, policy)[i], held, policy)
  {
    PutKeepsIdentity(rows, claim, policy, i);
  }

  /** When writes collide, the last one decides what the row holds. */
  lemma {:induction false} LastWriteHolds<P, C>(rows: seq<Row<P, C>>, claims: seq<Row<P, C>>, policy: Policy, n: nat)
      returns (i: nat)
    requires n < |claims| && claims[n].live
    requires forall m :: n < m < |claims| ==> !Same(claims[m], claims[n], policy)
    ensures i < |PutAll(rows, claims, policy)| && Holds(PutAll(rows, claims, policy)[i], claims[n], policy)
    decreases |claims|
  {
    var front, last := claims[..|claims| - 1], claims[|claims| - 1];
    var before := PutAll(rows, front, policy);
    if n == |claims| - 1 {
      PutEstablishes(before, last, policy);
      i := PutIndex(before, last, policy);
    } else {
      i := LastWriteHolds(rows, front, policy, n);
      PutKeepsHeld(before, last, policy, claims[n], i);
    }
  }

  /**
   * When no two rows stand for the same thing, a row that stands for a write holds the last write that stands for it.
   */
  lemma RowHoldsItsLast<P, C>(rows: seq<Row<P, C>>, claims: seq<Row<P, C>>, policy: Policy, i: nat, k: nat)
    returns (n: nat)
    requires Unique(rows, policy) && k < |claims| && forall w :: w in claims ==> w.live
    requires i < |PutAll(rows, claims, policy)| && Same(PutAll(rows, claims, policy)[i], claims[k], policy)
    ensures n < |claims| && Same(claims[n], claims[k], policy) && Holds(PutAll(rows, claims, policy)[i], claims[n],
                                                                        policy)
    ensures forall m :: n < m < |claims| ==> !Same(claims[m], claims[n], policy)
  {
    n := |claims| - 1;
    while !Same(claims[n], claims[k], policy)
      invariant k <= n < |claims| && forall m :: n < m < |claims| ==> !Same(claims[m], claims[k], policy)
      decreases n
    {
      n := n - 1;
    }
    assert claims[n] in claims;
    var j := LastWriteHolds(rows, claims, policy, n);
    PutAllKeepsUnique(rows, claims, policy);
    assert Same(PutAll(rows, claims, policy)[i], PutAll(rows, claims, policy)[j], policy);
  }

  // ── what a whole reconciliation establishes ────────────────────────────────

  /** A sweep spares whatever has been observed since the run started. */
  lemma SweepKeepsCovered<P, C>(rows: seq<Row<P, C>>, other: Row<P, C>, policy: Policy, scope: P -> bool, key: string,
                                startedAt: int)
    requires policy != ByPlaceKeepingMark && Covered(rows, other, policy, startedAt)
    ensures Covered(Sweep(rows, scope, key, startedAt), other, policy, startedAt)
  {
    var i :| 0 <= i < |rows| && rows[i].live && Same(rows[i], other, policy) && SeenSince(rows[i], policy, startedAt);
    assert Sweep(rows, scope, key, startedAt)[i] == rows[i];
  }

  /**
   * Exact outcome of a completed mark and sweep: the live rows of the key and scope stand for the writes of
   * this run and for the rows an overlapping run observed, and for nothing else.
   */
  lemma ReconciledExactly<P, C>(rows: seq<Row<P, C>>, claims: seq<Row<P, C>>, policy: Policy,
                                scope: P -> bool, key: string, startedAt: int)
    requires policy != ByPlaceKeepingMark
    requires forall w :: w in claims ==> Recent(w, scope, key, startedAt)
    ensures var r := Reconciled(rows, claims, |claims|, true, policy, scope, key, startedAt);
            && (forall w :: w in claims ==> Covered(r, w, policy, startedAt))
            && (forall i :: 0 <= i < |rows| && Recent(rows[i], scope, key, startedAt) ==> Covered(r, rows[i], policy, startedAt))
            && (forall i :: 0 <= i < |r| && InScope(r[i], scope, key) ==>
                  || (exists w :: w in claims && Holds(r[i], w, policy))
                  || (i < |rows| && r[i] == rows[i] && Recent(rows[i], scope, key, startedAt)))
  {
    assert claims[..|claims|] == claims;
    var written := PutAll(rows, claims, policy);
    var r := Sweep(written, scope, key, startedAt);
    PutAllCovers(rows, claims, policy, startedAt);
    forall w | w in claims
      ensures Covered(r, w, policy, startedAt)
    {
      SweepKeepsCovered(written, w, policy, scope, key, startedAt);
    }
    forall i | 0 <= i < |rows| && Recent(rows[i], scope, key, startedAt)
      ensures Covered(r, rows[i], policy, startedAt)
    {
      assert Covered(rows, rows[i], policy, startedAt);
      PutAllKeepsCovered(rows, claims, policy, rows[i], startedAt);
      SweepKeepsCovered(written, rows[i], policy, scope, key, startedAt);
    }
    forall i | 0 <= i < |r| && InScope(r[i], scope, key)
      ensures || (exists w :: w in claims && Holds(r[i], w, policy))
              || (i < |rows| && r[i] == rows[i] && Recent(rows[i], scope, key, startedAt))
    {
      PutAllWritesNothingElse(rows, claims, policy, i);
    }
  }

  /** A run that does not reach its sweep retires nothing. */
  lemma {:induction false} NoSweepNoRetraction<P, C>(rows: seq<Row<P, C>>, claims: seq<Row<P, C>>, policy: Policy)
    ensures forall i :: 0 <= i < |rows| && rows[i].live ==> PutAll(rows, claims, policy)[i].live
    decreases |claims|
  {
    if claims != [] {
      var front, last := claims[..|claims| - 1], claims[|claims| - 1];
      NoSweepNoRetraction(rows, front, policy);
      forall i | 0 <= i < |rows| && rows[i].live
        ensures PutAll(rows, claims, policy)[i].live
      {
        PutKeepsIdentity(PutAll(rows, front, policy), last, policy, i);
      }
    }
  }

  /** A batch never touches a row that stands for none of its writes. */
  lemma {:induction false} PutAllFrame<P, C>(rows: seq<Row<P, C>>, claims: seq<Row<P, C>>, policy: Policy, i: nat)
    requires i < |rows|
    requires forall w :: w in claims ==> !Same(rows[i], w, policy)
    ensures PutAll(rows, claims, policy)[i] == rows[i]
    decreases |claims|
  {
    if claims != [] {
      PutAllFrame(rows, claims[..|claims| - 1], policy, i);
      PutKeepsIdentity(PutAll(rows, claims[..|claims| - 1], policy), claims[|claims| - 1], policy, i);
    }
  }

  /** A reconciliation keeps what every existing row stands for. */
  lemma {:induction false} PutAllKeepsIdentity<P, C>(rows: seq<Row<P, C>>, claims: seq<Row<P, C>>, policy: Policy,
                                                     i: nat)
    requires i < |rows|
    ensures PutAll(rows, claims, policy)[i].place == rows[i].place
    ensures policy == ByMark && rows[i].mark.Some? ==> Same(PutAll(rows, claims, policy)[i], rows[i], policy)
    decreases |claims|
  {
    if claims != [] {
      PutAllKeepsIdentity(rows, claims[..|claims| - 1], policy, i);
      PutKeepsIdentity(PutAll(rows, claims[..|claims| - 1], policy), claims[|claims| - 1], policy, i);
    }
  }

  /** `row` is `before`, possibly soft-deleted. */
  predicate Descends<P(==), C>(row: Row<P, C>, before: Row<P, C>) {
    row.place == before.place && row.mark == before.mark && (row.live ==> before.live)
  }

  /** `row` carries the place and the mark of one of the claims. */
  ghost predicate CarriesClaim<P, C>(row: Row<P, C>, claims: seq<Row<P, C>>) {
    exists w :: w in claims && row.place == w.place && row.mark == w.mark
  }

  /** Every row a reconciliation leaves was there before or carries the mark of one of its claims. */
  lemma ReconciledRowComesFrom<P, C>(rows: seq<Row<P, C>>, claims: seq<Row<P, C>>, landed: nat, sweeps: bool,
                                     policy: Policy,
                                     scope: P -> bool, key: string, startedAt: int, i: nat)
    requires landed <= |claims| && policy != ByPlaceKeepingMark && forall w :: w in claims ==> w.live
    requires i < |Reconciled(rows, claims, landed, sweeps, policy, scope, key, startedAt)|
    ensures var row := Reconciled(rows, claims, landed, sweeps, policy, scope, key, startedAt)[i];
            (i < |rows| && Descends(row, rows[i])) || CarriesClaim(row, claims)
  {
    assert forall w :: w in claims[..landed] ==> w in claims;
    PutAllWritesNothingElse(rows, claims[..landed], policy, i);
    var written := PutAll(rows, claims[..landed], policy);
    if w :| w in claims[..landed] && Holds(written[i], w, policy) {
      assert CarriesClaim(written[i], claims);
    }
  }

  lemma SweepKeepsUnique<P, C>(rows: seq<Row<P, C>>, policy: Policy, scope: P -> bool, key: string, startedAt: int)
    requires Unique(rows, policy)
    ensures Unique(Sweep(rows, scope, key, startedAt), policy)
  {
    var after := Sweep(rows, scope, key, startedAt);
    forall i, j | 0 <= i < |after| && 0 <= j < |after| && Same(after[i], after[j], policy)
      ensures i == j
    {
      assert Same(rows[i], rows[j], policy);
    }
  }
}
