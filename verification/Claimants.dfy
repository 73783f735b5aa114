/** Who claims a name, and what a contested or unclaimed name resolves to. */
module Claimants {

  datatype Resolution = Missing | Owned(repository: string) | Contested

  /** A name resolves to its claimant when there is exactly one; several claimants leave it contested. */
  ghost function SoleOwner(owners: set<string>): Resolution {
    if owners == {} then Missing
    else if |owners| == 1 then var id :| id in owners; Owned(id)
    else Contested
  }

  lemma SingletonIs<T>(s: set<T>, x: T)
    requires |s| == 1 && x in s
    ensures s == {x}
  {
    assert |s - {x}| == 0;
  }

  lemma ResolveOwned(owners: set<string>, id: string)
    ensures SoleOwner(owners) == Owned(id) <==> owners == {id}
  {
    if owners == {id} {
      assert |owners| == 1;
    }
    if SoleOwner(owners) == Owned(id) {
      SingletonIs(owners, id);
    }
  }

  method ResolveClaimants(claimants: set<string>) returns (r: Resolution)
    ensures r == SoleOwner(claimants)
  {
    if claimants == {} {
      return Missing;
    }
    if |claimants| == 1 {
      var id :| id in claimants;
      SingletonIs(claimants, id);
      return Owned(id);
    }
    return Contested;
  }
}
