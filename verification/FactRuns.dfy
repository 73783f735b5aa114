/** What the fact store holds after any sequence of syncs, and when it makes a sync skip its extraction. */
module FactRuns {
  import opened Facts
  import opened Extraction

  /** The fact is the one this sync extracted: its tree, its version, its data and its own verdict on them. */
  ghost predicate IsFrom<D>(fact: Fact<D>, e: Sync<D>) {
    && fact.organization == e.organization && fact.repository == e.repository
    && fact.treeSha == e.treeSha && fact.version == e.version && fact.extractedAt == e.now
    && fact.decodes && fact.data == e.extract().0
    && fact.recorded == e.extract().1 && fact.complete == e.extract().1.complete
  }

  /** The sync extracts and stores: it could load, was not skipped, and its write went through. */
  predicate Lands<D>(s: FactStore<D>, e: Sync<D>) {
    e.loads && e.stores && !Fresh(s, e)
  }

  /** One sync: either its own fact is now the repository's, or nothing changed. */
  lemma OneSync<D>(s: FactStore<D>, e: Sync<D>, repository: string)
    ensures Lands(s, e) ==> e.repository in Synced(s, e) && IsFrom(Synced(s, e)[e.repository], e)
    ensures !Lands(s, e) ==> Synced(s, e) == s
    ensures repository != e.repository ==>
              (repository in Synced(s, e) <==> repository in s) && (repository in s ==> Synced(s, e)[repository] == s[repository])
  {
  }

  /** The `n`-th sync lands, and no later one of its repository does. */
  ghost predicate LandsLast<D(!new)>(s: FactStore<D>, events: seq<Sync<D>>, n: nat)
    requires n < |events|
  {
    && Lands(SyncedAll(s, events[..n]), events[n])
    && forall m :: n < m < |events| && events[m].repository == events[n].repository ==> !Lands(SyncedAll(s, events[..m]), events[m])
  }

  /** The store these syncs leave holds the fact, for the repository whose last sync to land was the `n`-th. */
  ghost predicate LeftBehind<D(!new)>(fact: Fact<D>, s: FactStore<D>, events: seq<Sync<D>>, n: nat) {
    && n < |events| && LandsLast(s, events, n)
    && events[n].repository in SyncedAll(s, events) && fact == SyncedAll(s, events)[events[n].repository]
  }

  /**
   * After any sequence of syncs a repository's stored fact is the one of the last sync that landed: complete if
   * that extraction was, and incomplete if it was not, whatever complete fact it replaced.
   */
  lemma {:induction false} LastSyncIsStored<D(!new)>(s: FactStore<D>, events: seq<Sync<D>>, n: nat)
    requires n < |events| && LandsLast(s, events, n)
    ensures events[n].repository in SyncedAll(s, events) && IsFrom(SyncedAll(s, events)[events[n].repository],
                                                                   events[n])
    decreases |events|
  {
    var front, last := events[..|events| - 1], events[|events| - 1];
    hide IsFrom, Lands, Synced;
    OneSync(SyncedAll(s, front), last, events[n].repository);
    if n < |events| - 1 {
      assert events[..n] == front[..n] && front[n] == events[n];
      forall m | n < m < |front| && front[m].repository == front[n].repository
        ensures !Lands(SyncedAll(s, front[..m]), front[m])
      {
        assert front[..m] == events[..m] && front[m] == events[m];
      }
      LastSyncIsStored(s, front, n);
    }
  }

  /** Before any sync of it lands, a repository's fact is the one that was there. */
  lemma {:induction false} UntouchedFactStays<D(!new)>(s: FactStore<D>, events: seq<Sync<D>>, repository: string)
    requires forall m :: 0 <= m < |events| && events[m].repository == repository ==> !Lands(SyncedAll(s, events[..m]), events[m])
    ensures repository in SyncedAll(s, events) <==> repository in s
    ensures repository in s ==> SyncedAll(s, events)[repository] == s[repository]
  {
    if events != [] {
      hide Lands, Synced;
      var front, last := events[..|events| - 1], events[|events| - 1];
      forall m | 0 <= m < |front| && front[m].repository == repository
        ensures !Lands(SyncedAll(s, front[..m]), front[m])
      {
        assert front[..m] == events[..m] && front[m] == events[m];
      }
      UntouchedFactStays(s, front, repository);
      OneSync(SyncedAll(s, front), last, repository);
    }
  }

  /**
   * A second sync of a repository is answered by the first exactly when the first extracted completely, from the
   * same named tree, with the same version; otherwise its own fact takes the first one's place.
   */
  lemma SecondSyncIsAnsweredIff<D>(s: FactStore<D>, first: Sync<D>, second: Sync<D>)
    requires Lands(s, first) && second.repository == first.repository && second.loads && second.stores
    ensures var after := Synced(Synced(s, first), second);
            && first.repository in after
            && if first.extract().1.complete && first.treeSha != "" && first.treeSha == second.treeSha && first.version == second.version
               then IsFrom(after[first.repository], first) else IsFrom(after[first.repository], second)
  {
    OneSync(s, first, first.repository);
    OneSync(Synced(s, first), second, first.repository);
  }

  /** Whether the fact in the store may retract is exactly whether the last sync to land extracted completely. */
  lemma StoredFactRetractsIff<D(!new)>(fact: Fact<D>, s: FactStore<D>, events: seq<Sync<D>>, n: nat)
    requires LeftBehind(fact, s, events, n)
    ensures IsFrom(fact, events[n])
    ensures Reading(fact).complete <==> events[n].extract().1.complete
  {
    LastSyncIsStored(s, events, n);
  }
}
