/** What single calls do to a token family: whose pair is handed out, and what logging out ends for good. */
module TokenProperties {
  import opened Wrappers
  import opened Tokens

  /** The token is as it was, or the same one revoked. */
  predicate SameToken(a: Token, b: Token) {
    b == a || b == a.(revoked := true)
  }

  // ── the pair a call hands out ──────────────────────────────────────────────

  /** A rotation goes through exactly for a live, unexpired refresh token of somebody still in good standing. */
  lemma RotatesIff(s: State, config: Config, raw: nat, now: int, standing: bool, calls: nat)
    ensures Step(s, config, Present(raw, now, standing, calls)).1.Issued?
            <==> && raw < |s.tokens| && s.tokens[raw].kind == Refresh && !s.tokens[raw].revoked
                 && now <= s.tokens[raw].expiresAt && standing && calls >= 7
  {
  }

  /** And a refusal gives a true reason: no refresh token, a revoked one, or an expired one. */
  lemma RefusedBecause(s: State, config: Config, raw: nat, now: int, standing: bool, calls: nat)
    ensures var outcome := Step(s, config, Present(raw, now, standing, calls)).1;
            var known := calls > 0 && raw < |s.tokens| && s.tokens[raw].kind == Refresh;
            && (outcome == InvalidToken <==> calls > 0 && !known)
            && (outcome == TokenRevoked <==> known && s.tokens[raw].revoked)
            && (outcome == TokenExpired <==> known && !s.tokens[raw].revoked && s.tokens[raw].expiresAt < now)
  {
  }

  /** The token a call rotates, if it rotates one. */
  function Rotating(e: Event): Option<nat> {
    if e.Present? then Some(e.raw) else None
  }

  /**
   * The two tokens handed out are the last of the table and belong to whoever logged in or presented a token: an
   * access and a refresh token of one family, the presented token's or one never used before, each with its own
   * lifetime, the refresh token's parent being the token it was bought with. No other token but that one changes.
   */
  lemma IssuedPairIsTheCallers(s: State, config: Config, e: Event)
    requires Valid(s) && Step(s, config, e).1.Issued?
    ensures var (after, issued) := Step(s, config, e);
            && issued.access == |s.tokens| && issued.refresh == |s.tokens| + 1 && |after.tokens| == |s.tokens| + 2
            && (e.Login? || (e.Present? && e.raw < |s.tokens|))
            && var access, refresh := after.tokens[issued.access], after.tokens[issued.refresh];
            && access.kind == Access && refresh.kind == Refresh && !access.revoked && !refresh.revoked
            && access.user == refresh.user == (if e.Login? then e.user else s.tokens[e.raw].user)
            && access.organization == refresh.organization == (if e.Login? then e.organization else s.tokens[e.raw].organization)
            && access.expiresAt == e.now + config.accessTtl && refresh.expiresAt == e.now + config.refreshTtl
            && access.parent.None? && refresh.parent == Rotating(e)
            && access.family.Some? && access.family == refresh.family
            && (if e.Present? && s.tokens[e.raw].family.Some? then access.family == s.tokens[e.raw].family
                else forall i :: 0 <= i < |s.tokens| ==> s.tokens[i].family != access.family)
            && (forall i :: 0 <= i < |s.tokens| ==>
                  after.tokens[i] == if Rotating(e) == Some(i) then s.tokens[i].(revoked := true) else s.tokens[i])
  {
  }

  // ── logging out ────────────────────────────────────────────────────────────

  /**
   * Logging out revokes the token presented and everything else of its family, and nothing else: no other family,
   * no other token without one, and nothing at all when the token is unknown or either storage call fails.
   */
  lemma LogoutRevokesExactly(s: State, config: Config, raw: nat, calls: nat, i: nat)
    requires i < |s.tokens|
    ensures var after := Step(s, config, Logout(raw, calls)).0;
            && |after.tokens| == |s.tokens| && after.nextFamily == s.nextFamily && SameToken(s.tokens[i], after.tokens[i])
            && (after.tokens[i].revoked
                <==> || s.tokens[i].revoked
                     || (calls >= 2 && raw < |s.tokens| && (i == raw || Kin(s.tokens[raw], s.tokens[i]))))
  {
  }

  /**
   * Logging out with any token of a family leaves the family dead exactly when it was, or both storage calls got
   * through.
   */
  lemma LogoutKillsTheFamilyIff(s: State, config: Config, raw: nat, calls: nat)
    requires Valid(s) && raw < |s.tokens| && s.tokens[raw].family.Some?
    ensures Dead(Step(s, config, Logout(raw, calls)).0, s.tokens[raw].family.value)
            <==> Dead(s, s.tokens[raw].family.value) || calls >= 2
  {
    var after, family := Step(s, config, Logout(raw, calls)).0, s.tokens[raw].family.value;
    forall i | 0 <= i < |s.tokens|
      ensures SameToken(s.tokens[i], after.tokens[i])
      ensures after.tokens[i].revoked
              <==> s.tokens[i].revoked || (calls >= 2 && (i == raw || Kin(s.tokens[raw], s.tokens[i])))
    {
      LogoutRevokesExactly(s, config, raw, calls, i);
    }
    LogoutRevokesExactly(s, config, raw, calls, raw);
  }

  /** A token that never had a family is refused from then on, and nobody else notices. */
  lemma LogoutWithoutFamily(s: State, config: Config, raw: nat, calls: nat, now: int, standing: bool, later: nat)
    requires raw < |s.tokens| && s.tokens[raw].family.None? && calls >= 2 && later > 0
    ensures var after := Step(s, config, Logout(raw, calls)).0;
            Step(after, config, Present(raw, now, standing, later))
            == (after, if s.tokens[raw].kind == Refresh then TokenRevoked else InvalidToken)
  {
  }

  // ── what a dead family means ───────────────────────────────────────────────

  lemma StepAddsNothing(s: State, config: Config, e: Event, family: nat)
    requires Dead(s, family)
    ensures var after := Step(s, config, e).0;
            |s.tokens| <= |after.tokens| && forall i :: |s.tokens| <= i < |after.tokens| ==> after.tokens[i].family != Some(family)
  {
  }

  /** No later run, whatever is called in it, adds a token to a dead family. */
  lemma {:induction false} DeadFamilyGrowsNoMore(s: State, config: Config, events: seq<Event>, family: nat)
    requires Dead(s, family)
    ensures var after := Exec(s, config, events);
            |s.tokens| <= |after.tokens| && forall i :: |s.tokens| <= i < |after.tokens| ==> after.tokens[i].family != Some(family)
  {
    if events != [] {
      hide Step, Dead;
      var front := events[..|events| - 1];
      DeadFamilyGrowsNoMore(s, config, front, family);
      DeadFamilyStaysDead(s, config, front, family);
      StepAddsNothing(Exec(s, config, front), config, events[|events| - 1], family);
      FamiliesStay(Exec(s, config, front), config, events[|events| - 1]);
    }
  }

  lemma FamiliesStay(s: State, config: Config, e: Event)
    ensures var after := Step(s, config, e).0;
            |s.tokens| <= |after.tokens| && forall i :: 0 <= i < |s.tokens| ==> SameToken(s.tokens[i], after.tokens[i])
  {
  }

  /** And none of its tokens buys anything. */
  lemma DeadFamilyBuysNothing(s: State, config: Config, raw: nat, now: int, standing: bool, calls: nat, family: nat)
    requires Dead(s, family) && raw < |s.tokens| && s.tokens[raw].family == Some(family)
    ensures !Step(s, config, Present(raw, now, standing, calls)).1.Issued?
  {
  }

  /** Logging out ends the family for good: whatever is called afterwards, no token of it ever buys a pair again. */
  lemma LogoutIsFinal(s: State, config: Config, raw: nat, calls: nat, later: seq<Event>, i: nat, now: int,
                      standing: bool, again: nat)
    requires Valid(s) && raw < |s.tokens| && s.tokens[raw].family.Some? && calls >= 2
    requires var after := Exec(Step(s, config, Logout(raw, calls)).0, config, later);
             i < |after.tokens| && after.tokens[i].family == s.tokens[raw].family
    ensures var after := Exec(Step(s, config, Logout(raw, calls)).0, config, later);
            i < |s.tokens| && !Step(after, config, Present(i, now, standing, again)).1.Issued?
  {
    hide Step, Exec, Dead, Valid;
    var out, family := Step(s, config, Logout(raw, calls)).0, s.tokens[raw].family.value;
    LogoutKillsTheFamilyIff(s, config, raw, calls);
    DeadFamilyStaysDead(out, config, later, family);
    DeadFamilyGrowsNoMore(out, config, later, family);
    LogoutRevokesExactly(s, config, raw, calls, raw);
    DeadFamilyBuysNothing(Exec(out, config, later), config, i, now, standing, again, family);
  }

  /** Revoking by identifier revokes exactly that token. */
  lemma RevokeByIdExactly(s: State, config: Config, jti: nat, calls: nat, i: nat)
    requires i < |s.tokens|
    ensures var after := Step(s, config, RevokeById(jti, calls)).0;
            && |after.tokens| == |s.tokens| && SameToken(s.tokens[i], after.tokens[i])
            && (after.tokens[i].revoked <==> s.tokens[i].revoked || (calls > 0 && i == jti))
  {
  }
}
