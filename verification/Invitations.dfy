/** Invites, roles and sessions call by call: what is sent, who may redeem it, and what tokens then say. */
module Invitations {
  import opened Wrappers
  import opened Text
  import opened TextProperties
  import opened Membership

  /** Two spellings of one address: surrounding white space and letter case do not count. */
  predicate SameAddress(a: string, b: string) {
    ToLower(TrimSpace(a)) == ToLower(TrimSpace(b))
  }

  /** A role people can hold. */
  predicate KnownRole(role: Role) {
    role in {Viewer, Developer, Maintainer, Admin}
  }

  // ── sending ────────────────────────────────────────────────────────────────

  /** The role an invite offers when asked for this one; leaving it blank asks for a developer. */
  function OfferedRole(role: Role): Role {
    if role == Unknown("") then Developer else role
  }

  /** Some member, active or not, already has the address. */
  ghost predicate Taken(members: Members, organization: string, email: string) {
    exists user :: (organization, user) in members && ToLower(user) == ToLower(TrimSpace(email))
  }

  /** Nothing is asked for, or a flow of this very organization. */
  predicate FlowIsFine(flow: NamedFlow, organization: string) {
    flow.NoFlow? || (flow.Flow? && flow.organization == organization)
  }

  ghost predicate MayInvite(s: State, e: Event)
    requires e.CreateInvite?
  {
    && Session(e.organization, e.actor, Admin) in s.sessions && e.parses && e.loads && e.stores
    && KnownRole(OfferedRole(e.role)) && !Taken(s.members, e.organization, e.email) && FlowIsFine(e.flow, e.organization)
  }

  lemma AddressForms(email: string)
    ensures ToLower(TrimSpace(ToLower(email))) == ToLower(TrimSpace(email))
    ensures SameAddress(TrimSpace(ToLower(email)), email)
  {
    TrimAndCaseCommute(email);
    CaseFolds(TrimSpace(email));
    var i, j := TrimSpaceExactly(ToLower(email));
    TightIsTrimmed(TrimSpace(ToLower(email)));
  }

  lemma TakenIffHeld(members: Members, organization: string, email: string)
    ensures Holds(members, organization, TrimSpace(ToLower(email))) <==> Taken(members, organization, email)
  {
    AddressForms(email);
    if user :| (organization, user) in members && ToLower(user) == ToLower(TrimSpace(email)) {
      assert (organization, user).0 == organization && (organization, user).1 == user;
    }
  }

  /**
   * An admin's call adds one open invite — for the address, with the role, flow and expiry asked for — exactly when
   * the address parses, the role is known, the flow is the organization's and no member has the address; else nothing
   * changes.
   */
  lemma InvitingAddsOneIff(s: State, e: Event)
    requires e.CreateInvite?
    ensures Step(s, e).1 == Done <==> MayInvite(s, e)
    ensures !MayInvite(s, e) ==> Step(s, e).0 == s
    ensures MayInvite(s, e) ==>
              var after := Step(s, e).0;
              && after.members == s.members && after.sessions == s.sessions && after.grants == s.grants
              && |after.invites| == |s.invites| + 1 && after.invites[..|s.invites|] == s.invites
              && var sent := after.invites[|s.invites|];
              && sent.organization == e.organization && SameAddress(sent.email, e.email) && sent.role == OfferedRole(e.role)
              && sent.flow == (if e.flow.Flow? then Some(e.flow.id) else None) && sent.expiresAt == e.expiresAt
              && sent.acceptedBy.None? && !sent.revoked
  {
    AddressForms(e.email);
    TakenIffHeld(s.members, e.organization, e.email);
  }

  // ── redeeming ──────────────────────────────────────────────────────────────

  /** The invite is unspent, not withdrawn, not expired, and for this address. */
  predicate OpenFor(s: State, k: nat, user: string, now: int) {
    && k < |s.invites| && s.invites[k].acceptedBy.None? && !s.invites[k].revoked && now < s.invites[k].expiresAt
    && SameAddress(s.invites[k].email, user)
  }

  /** Whoever an invite is not open for gets nothing from it, and learns nothing about why. */
  lemma StrangersAreRefused(s: State, k: nat, user: string, now: int, stores: bool, organization: string)
    requires !OpenFor(s, k, user, now)
    ensures Step(s, Redeem(k, user, now, true, stores)) == (s, InviteRejected)
    ensures !IsMember(s.members, organization, user) ==>
              Step(s, RedeemThroughProvider(organization, k, user, now, true, stores)) == (s, InviteRejected)
  {
  }

  /** Whoever it is open for, and who has no membership there, joins with the role offered and a token that says so. */
  lemma InviteeJoins(s: State, k: nat, user: string, now: int)
    requires OpenFor(s, k, user, now) && (s.invites[k].organization, user) !in s.members
    ensures var (after, outcome) := Step(s, Redeem(k, user, now, true, true));
            var invite := s.invites[k];
            && outcome == Done
            && after.members == s.members[(invite.organization, user) := Member(invite.role, true)]
            && after.invites == s.invites[k := invite.(acceptedBy := Some(user))]
            && after.sessions == s.sessions + {Session(invite.organization, user, invite.role)}
    ensures Step(s, RedeemThroughProvider(s.invites[k].organization, k, user, now, true, true))
            == Step(s, Redeem(k, user, now, true, true))
  {
  }

  /** An active member who redeems an invite only spends it: the invite is withdrawn, the membership stays. */
  lemma MembersOnlySpend(s: State, k: nat, user: string, now: int, stores: bool)
    requires OpenFor(s, k, user, now) && IsMember(s.members, s.invites[k].organization, user)
    ensures var (after, outcome) := Step(s, Redeem(k, user, now, true, stores));
            var invite := s.invites[k];
            && outcome == Done && after.members == s.members
            && after.invites == (if stores then s.invites[k := invite.(revoked := true)] else s.invites)
            && after.sessions == s.sessions + {Session(invite.organization, user,
                                                       s.members[(invite.organization, user)].role)}
  {
  }

  /** An invite does not bring back somebody whose membership is inactive, and a failed write changes nothing. */
  lemma InactiveMembersStayOut(s: State, k: nat, user: string, now: int, stores: bool)
    requires OpenFor(s, k, user, now) && !IsMember(s.members, s.invites[k].organization, user)
    requires !stores || (s.invites[k].organization, user) in s.members
    ensures Step(s, Redeem(k, user, now, true, stores)) == (s, InviteRejected)
  {
  }

  /** Through a provider an active member just gets a token, whatever invite comes along; another organization's is refused. */
  lemma ThroughProvider(s: State, organization: string, k: nat, user: string, now: int, stores: bool)
    ensures IsMember(s.members, organization, user) ==>
              Step(s, RedeemThroughProvider(organization, k, user, now, true, stores))
              == (s.(sessions := s.sessions + {Session(organization, user, s.members[(organization, user)].role)}), Done)
    ensures !IsMember(s.members, organization, user) && k < |s.invites| && s.invites[k].organization != organization ==>
              Step(s, RedeemThroughProvider(organization, k, user, now, true, stores)) == (s, InviteRejected)
  {
  }

  /**
   * Without an invite an active member gets a token; whoever comes to an organization without any member becomes its
   * admin; everybody else needs an invite.
   */
  lemma EnteringExactly(s: State, organization: string, user: string)
    ensures var (after, outcome) := Step(s, Enter(organization, user, true, true));
            var empty := forall other :: (organization, other) !in s.members;
            && (IsMember(s.members, organization, user) ==>
                  outcome == Done && after == s.(sessions := s.sessions + {Session(organization, user, s.members[(organization, user)].role)}))
            && (!IsMember(s.members, organization, user) && !empty ==> (after, outcome) == (s, RequiresInvite))
            && (empty ==> && outcome == Done && after.members == s.members[(organization, user) := Member(Admin, true)]
                          && after.sessions == s.sessions + {Session(organization, user, Admin)} && after.invites == s.invites)
  {
    if other :| (organization, other) in s.members {
      assert other in UsersOf(s.members, organization);
    } else {
      assert UsersOf(s.members, organization) == {};
    }
  }

  /** From invite to member: whoever owns the address joins, in any spelling of it, with the role that was asked for. */
  lemma InviteeJoinsAsInvited(s: State, e: Event, user: string, now: int)
    requires e.CreateInvite? && MayInvite(s, e) && SameAddress(user, e.email) && now < e.expiresAt
    requires (e.organization, user) !in s.members
    ensures var sent := Step(s, e).0;
            var (after, outcome) := Step(sent, Redeem(|s.invites|, user, now, true, true));
            && outcome == Done
            && after.members == s.members[(e.organization, user) := Member(OfferedRole(e.role), true)]
            && Session(e.organization, user, OfferedRole(e.role)) in after.sessions
            && forall other, later, stores :: Step(after, Redeem(|s.invites|, other, later, true, stores)) == (after, InviteRejected)
  {
    hide Step;
    InvitingAddsOneIff(s, e);
    var sent := Step(s, e).0;
    InviteeJoins(sent, |s.invites|, user, now);
    var after := Step(sent, Redeem(|s.invites|, user, now, true, true)).0;
    forall other, later, stores
      ensures Step(after, Redeem(|s.invites|, other, later, true, stores)) == (after, InviteRejected)
    {
      StrangersAreRefused(after, |s.invites|, other, later, stores, e.organization);
    }
  }

  // ── withdrawing ────────────────────────────────────────────────────────────

  /** An admin withdraws exactly an open invite of the organization, once, and nothing else changes. */
  lemma WithdrawingExactly(s: State, organization: string, actor: string, k: nat, loads: bool, stores: bool)
    ensures var (after, outcome) := Step(s, RevokeInvite(organization, actor, k, loads, stores));
            var allowed := && Session(organization, actor, Admin) in s.sessions && loads && stores && k < |s.invites|
                           && s.invites[k].organization == organization && s.invites[k].acceptedBy.None? && !s.invites[k].revoked;
            && (outcome == Done <==> allowed)
            && (!allowed ==> after == s)
            && (allowed ==> after == s.(invites := s.invites[k := s.invites[k].(revoked := true)]))
  {
  }

  /** A withdrawn invite admits nobody any more. */
  lemma WithdrawnAdmitsNobody(s: State, organization: string, actor: string, k: nat, user: string, now: int,
                              stores: bool)
    requires Step(s, RevokeInvite(organization, actor, k, true, true)).1 == Done
    ensures var after := Step(s, RevokeInvite(organization, actor, k, true, true)).0;
            Step(after, Redeem(k, user, now, true, stores)) == (after, InviteRejected)
  {
  }

  // ── roles ──────────────────────────────────────────────────────────────────

  /** Nobody but the target administers the organization. */
  ghost predicate OnlyAdmin(members: Members, organization: string, target: string) {
    forall other :: IsAdmin(members, organization, other) ==> other == target
  }

  ghost predicate MayChangeRole(s: State, e: Event)
    requires e.UpdateRole?
  {
    && Session(e.organization, e.actor, Admin) in s.sessions && KnownRole(e.role) && e.actor != e.target && e.loads
    && (e.organization, e.target) in s.members && s.members[(e.organization, e.target)].active
    && (e.role != s.members[(e.organization, e.target)].role ==>
          e.stores && !(IsAdmin(s.members, e.organization, e.target) && OnlyAdmin(s.members, e.organization, e.target)))
  }

  /**
   * An admin gives an active member of the organization, other than themselves, exactly the role asked for — unless
   * that would leave the organization without an admin — and nobody else's membership changes.
   */
  lemma RoleChangesExactly(s: State, e: Event)
    requires e.UpdateRole?
    ensures var (after, outcome) := Step(s, e);
            && (outcome == Done <==> MayChangeRole(s, e))
            && after == if MayChangeRole(s, e) then s.(members := s.members[(e.organization, e.target) := Member(e.role, true)]) else s
  {
    if IsAdmin(s.members, e.organization, e.target) {
      OneAdminIsTheOnlyOne(s.members, e.organization, e.target);
    }
    if MayChangeRole(s, e) && e.role == s.members[(e.organization, e.target)].role {
      assert s.members == s.members[(e.organization, e.target) := Member(e.role, true)];
    }
  }

  /** No other call changes the role of somebody who stays a member, or whether they are active. */
  lemma RolesChangeNoOtherWay(s: State, e: Event, key: (string, string))
    requires key in s.members && key in Step(s, e).0.members && !e.UpdateRole?
    ensures Step(s, e).0.members[key] == s.members[key]
  {
    assert key.1 in UsersOf(s.members, key.0);
  }

  /** A refusal to send an invite gives a true reason. */
  lemma InviteRefusedBecause(s: State, e: Event)
    requires e.CreateInvite?
    ensures match Step(s, e).1
            case Done => MayInvite(s, e)
            case Forbidden => Session(e.organization, e.actor, Admin) !in s.sessions
            case InvalidEmail => !e.parses
            case InvalidRole => !KnownRole(OfferedRole(e.role))
            case AlreadyMember => Taken(s.members, e.organization, e.email)
            case FlowNotFound => !FlowIsFine(e.flow, e.organization)
            case Failed => !e.loads || !e.stores || e.flow.Unread?
            case _ => false
  {
    TakenIffHeld(s.members, e.organization, e.email);
    InvitingAddsOneIff(s, e);
  }

  /** So does a refusal to change a member's role or to remove them. */
  lemma ChangeRefusedBecause(s: State, e: Event)
    requires e.UpdateRole? || e.RemoveMember?
    ensures match Step(s, e).1
            case Done => Session(e.organization, e.actor, Admin) in s.sessions
            case Forbidden => Session(e.organization, e.actor, Admin) !in s.sessions
            case InvalidRole => e.UpdateRole? && !KnownRole(e.role)
            case SelfDemotion => e.actor == e.target
            case MemberNotFound => !IsMember(s.members, e.organization, e.target)
            case LastAdmin => IsAdmin(s.members, e.organization, e.target) && OnlyAdmin(s.members, e.organization, e.target)
            case Failed => !e.loads || !e.stores
            case _ => false
  {
    if IsAdmin(s.members, e.organization, e.target) {
      OneAdminIsTheOnlyOne(s.members, e.organization, e.target);
    }
  }

  // ── sessions ───────────────────────────────────────────────────────────────

  /** The call may hand its caller a token. */
  predicate Admits(e: Event, user: string) {
    (e.SignIn? || e.Enter? || e.Redeem? || e.RedeemThroughProvider?) && e.user == user
  }

  /**
   * A token handed out says what the table says at that moment of its holder, who is an active member and the caller.
   */
  lemma TokensTellTheTruth(s: State, e: Event, t: Session)
    requires t in Step(s, e).0.sessions && t !in s.sessions
    ensures Admits(e, t.user)
    ensures var members := Step(s, e).0.members; (t.organization, t.user) in members && members[(t.organization, t.user)] == Member(t.role, true)
  {
  }

  /** Tokens are never taken back, and signing in always hands an active member one. */
  lemma SigningInHandsOutATokenIff(s: State, organization: string, user: string)
    ensures var after := Step(s, SignIn(organization, user)).0;
            && s.sessions <= after.sessions && after.members == s.members && after.invites == s.invites
            && (IsMember(s.members, organization, user) ==>
                  after.sessions == s.sessions + {Session(organization, user, s.members[(organization, user)].role)})
            && (!IsMember(s.members, organization, user) ==> after == s)
  {
  }

  /** A new role shows in the next token, not in the ones already out. */
  lemma NewRoleShowsInTheNextToken(s: State, e: Event)
    requires e.UpdateRole? && MayChangeRole(s, e)
    ensures var after := Step(s, e).0;
            && after.sessions == s.sessions
            && Session(e.organization, e.target, e.role) in Step(after, SignIn(e.organization, e.target)).0.sessions
  {
    hide Step;
    RoleChangesExactly(s, e);
    SigningInHandsOutATokenIff(Step(s, e).0, e.organization, e.target);
  }
}
