/**
 * Memberships and invites: every way into an organization and out of it, and why an admin always remains.
 *
 * A user is known by an e-mail address, which the users table keeps unique, and an invite token by the position
 * of its invite. Each service call is one atomic step. `loads` says whether every read before the write
 * succeeds, `stores` whether the write does.
 */
module Membership {
  import opened Wrappers
  import opened Text

  datatype Role = Viewer | Developer | Maintainer | Admin | Unknown(name: string)

  predicate IsAssignable(role: Role) {
    !role.Unknown?
  }

  datatype Member = Member(role: Role, active: bool)

  /** The onboarding flow an invite asks for, as its lookup finds it. */
  datatype NamedFlow = NoFlow | Flow(id: string, organization: string) | NoSuchFlow | Unread

  datatype Invite = Invite(organization: string, email: string, role: Role, flow: Option<string>, expiresAt: int,
                           acceptedBy: Option<string>, revoked: bool)
  {
    predicate IsRedeemable(now: int) {
      acceptedBy.None? && !revoked && expiresAt > now
    }

    predicate MatchesEmail(address: string) {
      ToLower(TrimSpace(email)) == ToLower(TrimSpace(address))
    }
  }

  /** What an access token says of its holder. Tokens are never withdrawn here, so a stale one still counts. */
  datatype Session = Session(organization: string, user: string, role: Role)

  /** One membership coming into being; `via` names the invite spent on it. */
  datatype Grant = Grant(organization: string, user: string, via: Option<nat>)

  type Members = map<(string, string), Member>

  datatype State = State(members: Members, invites: seq<Invite>, sessions: set<Session>, grants: seq<Grant>)

  const EMPTY := State(map[], [], {}, [])

  datatype Event =
    | SignIn(organization: string, user: string)
    | Enter(organization: string, user: string, loads: bool, stores: bool)
    | Redeem(invite: nat, user: string, now: int, loads: bool, stores: bool)
    | RedeemThroughProvider(organization: string, invite: nat, user: string, now: int, loads: bool, stores: bool)
    | CreateInvite(organization: string, actor: string, email: string, parses: bool, role: Role, flow: NamedFlow,
                   expiresAt: int,
                   loads: bool, stores: bool)
    | RevokeInvite(organization: string, actor: string, invite: nat, loads: bool, stores: bool)
    | UpdateRole(organization: string, actor: string, target: string, role: Role, loads: bool, stores: bool)
    | RemoveMember(organization: string, actor: string, target: string, loads: bool, stores: bool)

  datatype Outcome = Done | Failed | Forbidden | RequiresInvite | InviteRejected | InviteNotFound | InvalidRole | InvalidEmail
                   | AlreadyMember | FlowNotFound | MemberNotFound | SelfDemotion | LastAdmin

  predicate IsMember(members: Members, organization: string, user: string) {
    (organization, user) in members && members[(organization, user)].active
  }

  function UsersOf(members: Members, organization: string): set<string> {
    set key | key in members && key.0 == organization :: key.1
  }

  function AdminsOf(members: Members, organization: string): set<string> {
    set key | key in members && key.0 == organization && members[key] == Member(Admin, true) :: key.1
  }

  predicate Holds(members: Members, organization: string, address: string) {
    exists key :: key in members && key.0 == organization && ToLower(key.1) == ToLower(address)
  }

  function SignedIn(s: State, organization: string, user: string): State {
    if IsMember(s.members, organization, user)
    then s.(sessions := s.sessions + {Session(organization, user, s.members[(organization, user)].role)})
    else s
  }

  function Granted(s: State, organization: string, user: string, role: Role, via: Option<nat>): State {
    s.(members := s.members[(organization, user) := Member(role, true)], grants := s.grants + [Grant(organization, user, via)])
  }

  /** The one door without an invite: open only while the organization has no member at all. */
  function Entered(s: State, organization: string, user: string, loads: bool, stores: bool): (State, Outcome) {
    if !loads then (s, Failed)
    else if IsMember(s.members, organization, user) then (SignedIn(s, organization, user), Done)
    else if UsersOf(s.members, organization) != {} then (s, RequiresInvite)
    else if !stores then (s, Failed)
    else (SignedIn(Granted(s, organization, user, Admin, None), organization, user), Done)
  }

  function WithInvite(s: State, k: nat, invite: Invite): State
    requires k < |s.invites|
  {
    s.(invites := s.invites[k := invite])
  }

  /** Spending a resolved invite; accepting it and creating the membership are one transaction. */
  function Admitted(s: State, k: nat, user: string, stores: bool): (State, Outcome)
    requires k < |s.invites|
  {
    var invite := s.invites[k];
    if IsMember(s.members, invite.organization, user) then
      (SignedIn(if stores then WithInvite(s, k, invite.(revoked := true)) else s, invite.organization, user), Done)
    else if !stores || (invite.organization, user) in s.members then (s, InviteRejected)
    else
      (SignedIn(Granted(WithInvite(s, k, invite.(acceptedBy := Some(user))), invite.organization, user, invite.role, Some(k)), invite.organization, user), Done)
  }

  predicate Resolves(s: State, k: nat, user: string, now: int) {
    k < |s.invites| && s.invites[k].IsRedeemable(now) && s.invites[k].MatchesEmail(user)
  }

  function Redeemed(s: State, k: nat, user: string, now: int, loads: bool, stores: bool): (State, Outcome) {
    if !loads then (s, Failed)
    else if !Resolves(s, k, user, now) then (s, InviteRejected)
    else Admitted(s, k, user, stores)
  }

  function RedeemedThroughProvider(s: State, organization: string, k: nat, user: string, now: int, loads: bool,
                                   stores: bool): (State, Outcome)
  {
    if !loads then (s, Failed)
    else if IsMember(s.members, organization, user) then (SignedIn(s, organization, user), Done)
    else if !Resolves(s, k, user, now) || s.invites[k].organization != organization then (s, InviteRejected)
    else Admitted(s, k, user, stores)
  }

  /**
   * What a named flow adds to an invite: nothing is named, or one of this organization is; anything else is refused.
   */
  function FlowFor(flow: NamedFlow, organization: string): Result<Option<string>, Outcome> {
    match flow
    case NoFlow => Success(None)
    case Flow(id, owner) => if owner == organization then Success(Some(id)) else Failure(FlowNotFound)
    case NoSuchFlow => Failure(FlowNotFound)
    case Unread => Failure(Failed)
  }

  function Invited(s: State, organization: string, email: string, parses: bool, role: Role, flow: NamedFlow,
                   expiresAt: int,
                   loads: bool, stores: bool): (State, Outcome)
  {
    var address := TrimSpace(ToLower(email));
    var offered := if role == Unknown("") then Developer else role;
    if !parses then (s, InvalidEmail)
    else if !IsAssignable(offered) then (s, InvalidRole)
    else if !loads then (s, Failed)
    else if Holds(s.members, organization, address) then (s, AlreadyMember)
    else
      match FlowFor(flow, organization)
      case Failure(refusal) => (s, refusal)
      case Success(named) =>
        if !stores then (s, Failed)
        else (s.(invites := s.invites + [Invite(organization, address, offered, named, expiresAt, None, false)]), Done)
  }

  function InviteRevoked(s: State, organization: string, k: nat, loads: bool, stores: bool): (State, Outcome) {
    if !loads then (s, Failed)
    else if k >= |s.invites| || s.invites[k].organization != organization then (s, InviteNotFound)
    else if !stores || s.invites[k].acceptedBy.Some? || s.invites[k].revoked then (s, InviteNotFound)
    else (WithInvite(s, k, s.invites[k].(revoked := true)), Done)
  }

  function RoleUpdated(s: State, organization: string, actor: string, target: string, role: Role, loads: bool,
                       stores: bool): (State, Outcome)
  {
    if !IsAssignable(role) then (s, InvalidRole)
    else if actor == target then (s, SelfDemotion)
    else if !loads then (s, Failed)
    else if !IsMember(s.members, organization, target) then (s, MemberNotFound)
    else
      var member := s.members[(organization, target)];
      if member.role == role then (s, Done)
      else if member.role == Admin && |AdminsOf(s.members, organization)| <= 1 then (s, LastAdmin)
      else if !stores then (s, Failed)
      else (s.(members := s.members[(organization, target) := member.(role := role)]), Done)
  }

  function MemberRemoved(s: State, organization: string, actor: string, target: string, loads: bool,
                         stores: bool): (State, Outcome)
  {
    if actor == target then (s, SelfDemotion)
    else if !loads then (s, Failed)
    else if !IsMember(s.members, organization, target) then (s, MemberNotFound)
    else if s.members[(organization, target)].role == Admin && |AdminsOf(s.members, organization)| <= 1 then (s, LastAdmin)
    else if !stores then (s, Failed)
    else (s.(members := s.members - {(organization, target)}), Done)
  }

  /** The routes that manage members are for holders of a token that says admin. */
  predicate Authorized(s: State, organization: string, actor: string) {
    Session(organization, actor, Admin) in s.sessions
  }

  function Step(s: State, e: Event): (State, Outcome) {
    match e
    case SignIn(organization, user) => (SignedIn(s, organization, user), Done)
    case Enter(organization, user, loads, stores) => Entered(s, organization, user, loads, stores)
    case Redeem(k, user, now, loads, stores) => Redeemed(s, k, user, now, loads, stores)
    case RedeemThroughProvider(organization, k, user, now, loads, stores) =>
      RedeemedThroughProvider(s, organization, k, user, now, loads, stores)
    case CreateInvite(organization, actor, email, parses, role, flow, expiresAt, loads, stores) =>
      if Authorized(s, organization, actor) then Invited(s, organization, email, parses, role, flow, expiresAt, loads,
                                                         stores)
      else (s, Forbidden)
    case RevokeInvite(organization, actor, k, loads, stores) =>
      if Authorized(s, organization, actor) then InviteRevoked(s, organization, k, loads, stores) else (s, Forbidden)
    case UpdateRole(organization, actor, target, role, loads, stores) =>
      if Authorized(s, organization, actor) then RoleUpdated(s, organization, actor, target, role, loads, stores) else (s, Forbidden)
    case RemoveMember(organization, actor, target, loads, stores) =>
      if Authorized(s, organization, actor) then MemberRemoved(s, organization, actor, target, loads, stores) else (s, Forbidden)
  }

  function Exec(s: State, events: seq<Event>): State {
    if events == [] then s else Step(Exec(s, events[..|events| - 1]), events[|events| - 1]).0
  }

  class MembershipService {
    var members: Members
    var invites: seq<Invite>
    var sessions: set<Session>
    ghost var grants: seq<Grant>

    ghost function Model(): State
      reads this
    {
      State(members, invites, sessions, grants)
    }

    constructor ()
      ensures Model() == EMPTY
    {
      members, invites, sessions, grants := map[], [], {}, [];
    }

    method IssueSession(organization: string, user: string)
      modifies `sessions
      ensures Model() == SignedIn(old(Model()), organization, user)
    {
      if IsMember(members, organization, user) {
        sessions := sessions + {Session(organization, user, members[(organization, user)].role)};
      }
    }

    method EnsureOrganizationMember(organization: string, user: string, loads: bool, stores: bool)
      returns (outcome: Outcome)
      modifies this
      ensures (Model(), outcome) == Entered(old(Model()), organization, user, loads, stores)
    {
      if !loads {
        return Failed;
      }
      if !IsMember(members, organization, user) {
        if UsersOf(members, organization) != {} {
          return RequiresInvite;
        }
        if !stores {
          return Failed;
        }
        members := members[(organization, user) := Member(Admin, true)];
        grants := grants + [Grant(organization, user, None)];
      }
      IssueSession(organization, user);
      return Done;
    }

    method Admit(k: nat, user: string, stores: bool) returns (outcome: Outcome)
      requires k < |invites|
      modifies this
      ensures (Model(), outcome) == Admitted(old(Model()), k, user, stores)
    {
      var invite := invites[k];
      if IsMember(members, invite.organization, user) {
        if stores {
          invites := invites[k := invite.(revoked := true)];
        }
      } else {
        if !stores || (invite.organization, user) in members {
          return InviteRejected;
        }
        invites := invites[k := invite.(acceptedBy := Some(user))];
        members := members[(invite.organization, user) := Member(invite.role, true)];
        grants := grants + [Grant(invite.organization, user, Some(k))];
      }
      IssueSession(invite.organization, user);
      return Done;
    }

    method ResolveInvite(k: nat, user: string, now: int) returns (resolved: bool)
      ensures resolved == Resolves(Model(), k, user, now)
    {
      if k >= |invites| {
        return false;
      }
      if !invites[k].IsRedeemable(now) {
        return false;
      }
      return invites[k].MatchesEmail(user);
    }

    method AdmitOAuth(organization: string, k: nat, user: string, now: int, loads: bool, stores: bool)
      returns (outcome: Outcome)
      modifies this
      ensures (Model(), outcome) == RedeemedThroughProvider(old(Model()), organization, k, user, now, loads, stores)
    {
      if !loads {
        return Failed;
      }
      if IsMember(members, organization, user) {
        IssueSession(organization, user);
        return Done;
      }
      var resolved := ResolveInvite(k, user, now);
      if !resolved || invites[k].organization != organization {
        return InviteRejected;
      }
      outcome := Admit(k, user, stores);
    }

    method Register(k: nat, user: string, now: int, loads: bool, stores: bool) returns (outcome: Outcome)
      modifies this
      ensures (Model(), outcome) == Redeemed(old(Model()), k, user, now, loads, stores)
    {
      if !loads {
        return Failed;
      }
      var resolved := ResolveInvite(k, user, now);
      if !resolved {
        return InviteRejected;
      }
      outcome := Admit(k, user, stores);
    }

    method WithdrawInvite(organization: string, k: nat, loads: bool, stores: bool) returns (outcome: Outcome)
      modifies `invites
      ensures (Model(), outcome) == InviteRevoked(old(Model()), organization, k, loads, stores)
    {
      if !loads {
        return Failed;
      }
      if k >= |invites| || invites[k].organization != organization {
        return InviteNotFound;
      }
      if !stores || invites[k].acceptedBy.Some? || invites[k].revoked {
        return InviteNotFound;
      }
      invites := invites[k := invites[k].(revoked := true)];
      return Done;
    }

    method SendInvite(organization: string, email: string, parses: bool, role: Role, flow: NamedFlow, expiresAt: int,
                      loads: bool, stores: bool)
      returns (outcome: Outcome)
      modifies `invites
      ensures (Model(), outcome) == Invited(old(Model()), organization, email, parses, role, flow, expiresAt, loads,
                                            stores)
    {
      var address := TrimSpace(ToLower(email));
      if !parses {
        return InvalidEmail;
      }
      var offered := role;
      if offered == Unknown("") {
        offered := Developer;
      }
      if !IsAssignable(offered) {
        return InvalidRole;
      }
      if !loads {
        return Failed;
      }
      if Holds(members, organization, address) {
        return AlreadyMember;
      }
      var named: Option<string> := None;
      match flow {
        case NoFlow =>
        case Flow(id, owner) =>
          if owner != organization {
            return FlowNotFound;
          }
          named := Some(id);
        case NoSuchFlow => return FlowNotFound;
        case Unread => return Failed;
      }
      if !stores {
        return Failed;
      }
      invites := invites + [Invite(organization, address, offered, named, expiresAt, None, false)];
      return Done;
    }

    method EnsureNotLastAdmin(organization: string) returns (safe: bool)
      ensures safe == (|AdminsOf(members, organization)| > 1)
    {
      var admins := AdminsOf(members, organization);
      safe := |admins| > 1;
    }

    method UpdateMemberRole(organization: string, actor: string, target: string, role: Role, loads: bool, stores: bool)
      returns (outcome: Outcome)
      modifies `members
      ensures (Model(), outcome) == RoleUpdated(old(Model()), organization, actor, target, role, loads, stores)
    {
      if !IsAssignable(role) {
        return InvalidRole;
      }
      if actor == target {
        return SelfDemotion;
      }
      if !loads {
        return Failed;
      }
      if !IsMember(members, organization, target) {
        return MemberNotFound;
      }
      var member := members[(organization, target)];
      if member.role == role {
        return Done;
      }
      if member.role == Admin {
        var safe := EnsureNotLastAdmin(organization);
        if !safe {
          return LastAdmin;
        }
      }
      if !stores {
        return Failed;
      }
      members := members[(organization, target) := member.(role := role)];
      return Done;
    }

    method DropMember(organization: string, actor: string, target: string, loads: bool, stores: bool)
      returns (outcome: Outcome)
      modifies `members
      ensures (Model(), outcome) == MemberRemoved(old(Model()), organization, actor, target, loads, stores)
    {
      if actor == target {
        return SelfDemotion;
      }
      if !loads {
        return Failed;
      }
      if !IsMember(members, organization, target) {
        return MemberNotFound;
      }
      if members[(organization, target)].role == Admin {
        var safe := EnsureNotLastAdmin(organization);
        if !safe {
          return LastAdmin;
        }
      }
      if !stores {
        return Failed;
      }
      members := members - {(organization, target)};
      return Done;
    }
  }

  // ── what every run keeps ───────────────────────────────────────────────────

  ghost predicate HasMember(members: Members, organization: string) {
    exists user :: (organization, user) in members
  }

  ghost predicate IsAdmin(members: Members, organization: string, user: string) {
    (organization, user) in members && members[(organization, user)] == Member(Admin, true)
  }

  ghost predicate HasAdmin(members: Members, organization: string) {
    exists user :: IsAdmin(members, organization, user)
  }

  /** No organization with a member is without an active admin. */
  ghost predicate Led(members: Members) {
    forall organization :: HasMember(members, organization) ==> HasAdmin(members, organization)
  }

  /** Invites and tokens exist only for organizations somebody belongs to. */
  ghost predicate Rooted(s: State) {
    && (forall k :: 0 <= k < |s.invites| ==> HasMember(s.members, s.invites[k].organization))
    && (forall t :: t in s.sessions ==> HasMember(s.members, t.organization))
  }

  function Foundings(grants: seq<Grant>, organization: string): nat {
    if grants == [] then 0
    else
      var last := grants[|grants| - 1];
      Foundings(grants[..|grants| - 1], organization) + if last.organization == organization && last.via.None? then 1 else 0
  }

  function Spendings(grants: seq<Grant>, k: nat): nat {
    if grants == [] then 0
    else Spendings(grants[..|grants| - 1], k) + if grants[|grants| - 1].via == Some(k) then 1 else 0
  }

  /** Exactly one membership of an organization was ever created without an invite. */
  ghost predicate FoundedOnce(s: State) {
    forall organization :: Foundings(s.grants, organization) == if HasMember(s.members, organization) then 1 else 0
  }

  predicate Spent(s: State, k: nat) {
    k < |s.invites| && s.invites[k].acceptedBy.Some?
  }

  /** An invite made one membership if it was accepted, and none otherwise. */
  ghost predicate SpentOnce(s: State) {
    forall k: nat :: Spendings(s.grants, k) == if Spent(s, k) then 1 else 0
  }

  /** A membership that came by an invite is in its organization and for its address. */
  predicate Honours(s: State, grant: Grant) {
    grant.via.Some? ==>
      var k := grant.via.value;
      k < |s.invites| && s.invites[k].organization == grant.organization
      && s.invites[k].acceptedBy == Some(grant.user) && s.invites[k].MatchesEmail(grant.user)
  }

  ghost predicate Honoured(s: State) {
    forall g :: g in s.grants ==> Honours(s, g)
  }

  /** Nobody is a member who was never granted a membership. */
  predicate Accounted(s: State) {
    forall key :: key in s.members ==> exists g :: g in s.grants && g.organization == key.0 && g.user == key.1
  }

  ghost predicate Valid(s: State) {
    Led(s.members) && Rooted(s) && FoundedOnce(s) && SpentOnce(s) && Honoured(s) && Accounted(s)
  }

  /** The count the service refuses on says that nobody else is an admin. */
  lemma OneAdminIsTheOnlyOne(members: Members, organization: string, user: string)
    requires IsAdmin(members, organization, user)
    ensures |AdminsOf(members, organization)| <= 1
            <==> forall other :: IsAdmin(members, organization, other) ==> other == user
  {
    var admins := AdminsOf(members, organization);
    assert user in admins by { assert (organization, user) in members; }
    assert forall other :: IsAdmin(members, organization, other) <==> other in admins by {
      forall other
        ensures IsAdmin(members, organization, other) <==> other in admins
      {
        if IsAdmin(members, organization, other) {
          assert (organization, other) in members;
        }
      }
    }
    assert |admins - {user}| == |admins| - 1;
    if |admins| <= 1 {
      assert admins - {user} == {};
    } else {
      var other :| other in admins - {user};
    }
  }

  /** Demoting or removing someone is refused for the admin count exactly when they are the last active admin. */
  lemma LastAdminRefusedIff(s: State, organization: string, actor: string, target: string, role: Role, stores: bool)
    requires IsAssignable(role)
    ensures RoleUpdated(s, organization, actor, target, role, true, stores).1 == LastAdmin
            <==> && actor != target && role != Admin && IsAdmin(s.members, organization, target)
                 && forall other :: IsAdmin(s.members, organization, other) ==> other == target
    ensures MemberRemoved(s, organization, actor, target, true, stores).1 == LastAdmin
            <==> && actor != target && IsAdmin(s.members, organization, target)
                 && forall other :: IsAdmin(s.members, organization, other) ==> other == target
  {
    if IsAdmin(s.members, organization, target) {
      OneAdminIsTheOnlyOne(s.members, organization, target);
    }
  }

  lemma SignInKeepsValid(s: State, organization: string, user: string)
    requires Valid(s)
    ensures Valid(SignedIn(s, organization, user))
  {
    var after := SignedIn(s, organization, user);
    assert after.members == s.members && after.invites == s.invites && after.grants == s.grants;
    assert Accounted(after);
  }

  lemma FoundingsGrow(grants: seq<Grant>, grant: Grant, organization: string, k: nat)
    ensures Foundings(grants + [grant], organization)
            == Foundings(grants, organization) + if grant.organization == organization && grant.via.None? then 1 else 0
    ensures Spendings(grants + [grant], k) == Spendings(grants, k) + if grant.via == Some(k) then 1 else 0
  {
    assert (grants + [grant])[..|grants|] == grants;
  }

  lemma NewcomerJoins(members: Members, organization: string, user: string, role: Role)
    requires Led(members) && (organization, user) !in members
    requires HasMember(members, organization) || role == Admin
    ensures var after := members[(organization, user) := Member(role, true)];
            && Led(after)
            && forall other :: HasMember(after, other) <==> HasMember(members, other) || other == organization
  {
    var after := members[(organization, user) := Member(role, true)];
    assert (organization, user) in after;
    forall other
      ensures HasMember(after, other) <==> HasMember(members, other) || other == organization
      ensures HasMember(after, other) ==> HasAdmin(after, other)
    {
      if HasMember(members, other) {
        var admin :| IsAdmin(members, other, admin);
        assert (other, admin) in after;
        assert IsAdmin(after, other, admin);
      } else if other == organization {
        assert IsAdmin(after, other, user);
      }
    }
  }

  lemma GrantAccounts(s: State, organization: string, user: string, role: Role, via: Option<nat>)
    requires Accounted(s)
    ensures Accounted(Granted(s, organization, user, role, via))
  {
    var after := Granted(s, organization, user, role, via);
    forall key | key in after.members
      ensures exists g :: g in after.grants && g.organization == key.0 && g.user == key.1
    {
      if key in s.members {
        var g :| g in s.grants && g.organization == key.0 && g.user == key.1;
        assert g in after.grants;
      } else {
        assert Grant(organization, user, via) in after.grants;
      }
    }
  }

  lemma FoundingKeepsValid(s: State, organization: string, user: string)
    requires Valid(s) && !HasMember(s.members, organization)
    ensures Valid(Granted(s, organization, user, Admin, None))
  {
    assert (organization, user) !in s.members;
    NewcomerJoins(s.members, organization, user, Admin);
    GrantAccounts(s, organization, user, Admin, None);
    forall other, k: nat {
      FoundingsGrow(s.grants, Grant(organization, user, None), other, k);
    }
  }

  /** Acceptance makes the one grant it records. */
  lemma AcceptanceIsHonoured(s: State, k: nat, user: string, after: State)
    requires SpentOnce(s) && Honoured(s) && k < |s.invites| && s.invites[k].acceptedBy.None? && s.invites[k].MatchesEmail(user)
    requires after.invites == s.invites[k := s.invites[k].(acceptedBy := Some(user))]
    requires after.grants == s.grants + [Grant(s.invites[k].organization, user, Some(k))]
    ensures SpentOnce(after) && Honoured(after)
  {
    var grant := Grant(s.invites[k].organization, user, Some(k));
    forall j: nat
      ensures Spendings(after.grants, j) == if Spent(after, j) then 1 else 0
    {
      FoundingsGrow(s.grants, grant, "", j);
      assert Spent(after, j) <==> Spent(s, j) || j == k;
    }
    forall g | g in after.grants
      ensures Honours(after, g)
    {
      if g in s.grants {
        assert Honours(s, g);
      } else {
        assert g == grant;
      }
    }
  }

  lemma RedeemingKeepsValid(s: State, k: nat, user: string, now: int)
    requires Valid(s) && Resolves(s, k, user, now) && (s.invites[k].organization, user) !in s.members
    ensures var invite := s.invites[k];
            Valid(Granted(WithInvite(s, k, invite.(acceptedBy := Some(user))), invite.organization, user, invite.role,
                          Some(k)))
  {
    var invite := s.invites[k];
    var spent := WithInvite(s, k, invite.(acceptedBy := Some(user)));
    var after := Granted(spent, invite.organization, user, invite.role, Some(k));
    NewcomerJoins(s.members, invite.organization, user, invite.role);
    GrantAccounts(spent, invite.organization, user, invite.role, Some(k));
    AcceptanceIsHonoured(s, k, user, after);
    forall other {
      FoundingsGrow(s.grants, Grant(invite.organization, user, Some(k)), other, k);
    }
  }

  /** Changing an invite in any way that keeps what its acceptance stands on. */
  lemma RevokingKeepsValid(s: State, k: nat)
    requires Valid(s) && k < |s.invites|
    ensures Valid(WithInvite(s, k, s.invites[k].(revoked := true)))
  {
    var after := WithInvite(s, k, s.invites[k].(revoked := true));
    assert forall j: nat :: Spent(after, j) <==> Spent(s, j);
    assert forall g :: g in s.grants ==> (Honours(s, g) ==> Honours(after, g));
    assert Accounted(after);
  }

  lemma InvitingKeepsValid(s: State, invite: Invite)
    requires Valid(s) && HasMember(s.members, invite.organization) && invite.acceptedBy.None?
    ensures Valid(s.(invites := s.invites + [invite]))
  {
    var after := s.(invites := s.invites + [invite]);
    assert forall j: nat :: Spent(after, j) <==> Spent(s, j);
    assert forall g :: g in s.grants ==> (Honours(s, g) ==> Honours(after, g));
    assert Accounted(after);
  }

  /** A change to one membership that leaves some other admin in place. */
  lemma OthersRemain(s: State, members: Members, organization: string, target: string)
    requires Valid(s) && (organization, target) in s.members && members.Keys <= s.members.Keys
    requires forall key :: key in s.members && key != (organization, target) ==> key in members && members[key] == s.members[key]
    requires exists admin :: IsAdmin(members, organization, admin)
    ensures Valid(s.(members := members))
  {
    var after := s.(members := members);
    forall other
      ensures HasMember(members, other) <==> HasMember(s.members, other)
      ensures HasMember(members, other) ==> HasAdmin(members, other)
    {
      if other == organization {
        var admin :| IsAdmin(members, organization, admin);
        assert (organization, admin) in members;
      } else if HasMember(s.members, other) {
        var admin :| IsAdmin(s.members, other, admin);
        assert IsAdmin(members, other, admin);
      }
    }
    assert forall j: nat :: Spent(after, j) <==> Spent(s, j);
    assert forall g :: g in s.grants ==> (Honours(s, g) ==> Honours(after, g));
    assert Accounted(after);
  }

  /** Whoever may be demoted or removed leaves an admin behind. */
  lemma SomeoneElseLeads(s: State, organization: string, target: string)
    requires Valid(s) && (organization, target) in s.members
    requires s.members[(organization, target)] == Member(Admin, true) ==> |AdminsOf(s.members, organization)| > 1
    ensures exists admin :: IsAdmin(s.members, organization, admin) && admin != target
  {
    assert HasMember(s.members, organization);
    var admin :| IsAdmin(s.members, organization, admin);
    if admin == target {
      OneAdminIsTheOnlyOne(s.members, organization, target);
    }
  }

  lemma RoleUpdateKeepsValid(s: State, organization: string, actor: string, target: string, role: Role, loads: bool,
                             stores: bool)
    requires Valid(s)
    ensures Valid(RoleUpdated(s, organization, actor, target, role, loads, stores).0)
  {
    var after := RoleUpdated(s, organization, actor, target, role, loads, stores).0;
    if after != s {
      SomeoneElseLeads(s, organization, target);
      var admin :| IsAdmin(s.members, organization, admin) && admin != target;
      assert IsAdmin(after.members, organization, admin);
      OthersRemain(s, after.members, organization, target);
    }
  }

  lemma RemovalKeepsValid(s: State, organization: string, actor: string, target: string, loads: bool, stores: bool)
    requires Valid(s)
    ensures Valid(MemberRemoved(s, organization, actor, target, loads, stores).0)
  {
    var after := MemberRemoved(s, organization, actor, target, loads, stores).0;
    if after != s {
      SomeoneElseLeads(s, organization, target);
      var admin :| IsAdmin(s.members, organization, admin) && admin != target;
      assert IsAdmin(after.members, organization, admin);
      OthersRemain(s, after.members, organization, target);
    }
  }

  lemma EntryKeepsValid(s: State, organization: string, user: string, loads: bool, stores: bool)
    requires Valid(s)
    ensures Valid(Entered(s, organization, user, loads, stores).0)
  {
    SignInKeepsValid(s, organization, user);
    if UsersOf(s.members, organization) == {} {
      assert forall u :: (organization, u) in s.members ==> u in UsersOf(s.members, organization);
      FoundingKeepsValid(s, organization, user);
      SignInKeepsValid(Granted(s, organization, user, Admin, None), organization, user);
    }
  }

  lemma AdmissionKeepsValid(s: State, k: nat, user: string, now: int, stores: bool)
    requires Valid(s) && Resolves(s, k, user, now)
    ensures Valid(Admitted(s, k, user, stores).0)
  {
    var invite := s.invites[k];
    RevokingKeepsValid(s, k);
    if (invite.organization, user) in s.members {
      SignInKeepsValid(s, invite.organization, user);
      SignInKeepsValid(WithInvite(s, k, invite.(revoked := true)), invite.organization, user);
    } else {
      RedeemingKeepsValid(s, k, user, now);
      SignInKeepsValid(Granted(WithInvite(s, k, invite.(acceptedBy := Some(user))), invite.organization, user,
                               invite.role, Some(k)),
                       invite.organization, user);
    }
  }

  /** Whoever holds an admin's token, the organization has a member. */
  lemma SomeoneIsIn(s: State, organization: string, actor: string)
    requires Valid(s) && Authorized(s, organization, actor)
    ensures HasMember(s.members, organization)
  {
  }

  lemma StepKeepsValid(s: State, e: Event)
    requires Valid(s)
    ensures Valid(Step(s, e).0)
  {
    hide Valid, Entered, Admitted, RoleUpdated, MemberRemoved, SignedIn;
    match e
    case SignIn(organization, user) => SignInKeepsValid(s, organization, user);
    case Enter(organization, user, loads, stores) => EntryKeepsValid(s, organization, user, loads, stores);
    case Redeem(k, user, now, loads, stores) =>
      if Resolves(s, k, user, now) {
        AdmissionKeepsValid(s, k, user, now, stores);
      }
    case RedeemThroughProvider(organization, k, user, now, loads, stores) =>
      SignInKeepsValid(s, organization, user);
      if Resolves(s, k, user, now) {
        AdmissionKeepsValid(s, k, user, now, stores);
      }
    case CreateInvite(organization, actor, email, _, role, flow, expiresAt, _, _) =>
      if Authorized(s, organization, actor) && FlowFor(flow, organization).Success? {
        SomeoneIsIn(s, organization, actor);
        var offered := if role == Unknown("") then Developer else role;
        InvitingKeepsValid(s, Invite(organization, TrimSpace(ToLower(email)), offered,
                                     FlowFor(flow, organization).value, expiresAt, None, false));
      }
    case RevokeInvite(_, _, k, _, _) =>
      if k < |s.invites| {
        RevokingKeepsValid(s, k);
      }
    case UpdateRole(organization, actor, target, role, loads, stores) =>
      RoleUpdateKeepsValid(s, organization, actor, target, role, loads, stores);
    case RemoveMember(organization, actor, target, loads, stores) =>
      RemovalKeepsValid(s, organization, actor, target, loads, stores);
  }

  /**
   * In every run, with any tokens however stale: an organization with a member has an active admin, one
   * membership of it came without an invite, each accepted invite made exactly one membership, in its own
   * organization and for its own address, and nobody else is a member.
   */
  lemma {:induction false} EveryRunKeepsAnAdmin(events: seq<Event>)
    ensures Valid(Exec(EMPTY, events))
  {
    if events != [] {
      EveryRunKeepsAnAdmin(events[..|events| - 1]);
      StepKeepsValid(Exec(EMPTY, events[..|events| - 1]), events[|events| - 1]);
    }
  }

  /** An organization that has a member never runs out of them, so the door without an invite stays shut. */
  lemma {:induction false} NeverEmptiesAgain(s: State, events: seq<Event>, organization: string)
    requires Valid(s) && HasMember(s.members, organization)
    ensures Valid(Exec(s, events)) && HasMember(Exec(s, events).members, organization)
    ensures forall user, stores :: Entered(Exec(s, events), organization, user, true, stores).0.members == Exec(s, events).members
  {
    if events != [] {
      var before := Exec(s, events[..|events| - 1]);
      NeverEmptiesAgain(s, events[..|events| - 1], organization);
      StepKeepsValid(before, events[|events| - 1]);
      MembersRemain(before, events[|events| - 1], organization);
    }
    var after := Exec(s, events);
    var someone :| (organization, someone) in after.members;
    assert someone in UsersOf(after.members, organization);
  }

  /** A call adds at most one grant and withdraws none. */
  lemma GrantsOnlyGrow(s: State, e: Event)
    ensures var after := Step(s, e).0;
            after.grants == s.grants || (after.grants != [] && s.grants == after.grants[..|after.grants| - 1])
  {
  }

  lemma MembersRemain(s: State, e: Event, organization: string)
    requires Valid(s) && Valid(Step(s, e).0) && HasMember(s.members, organization)
    ensures HasMember(Step(s, e).0.members, organization)
  {
    hide Step, Led, Honoured, SpentOnce, Accounted;
    var after := Step(s, e).0;
    GrantsOnlyGrow(s, e);
    assert Foundings(after.grants, organization) >= Foundings(s.grants, organization) == 1;
  }

  // ── the only ways in and out ───────────────────────────────────────────────

  /** Entering an organization nobody belongs to. */
  ghost predicate Founds(s: State, e: Event, organization: string, user: string) {
    e == Enter(organization, user, true, true) && !HasMember(s.members, organization)
  }

  /** Redeeming an open invite of the organization, addressed to the user. */
  predicate Redeems(s: State, e: Event, organization: string, user: string) {
    && (e.Redeem? || (e.RedeemThroughProvider? && e.organization == organization))
    && e.user == user && e.loads && e.stores
    && Resolves(s, e.invite, user, e.now) && s.invites[e.invite].organization == organization
  }

  /**
   * Nobody becomes a member but by founding the organization, as its admin, or by redeeming an invite that was
   * open, of that organization and addressed to them, with the role it offers.
   */
  lemma MembershipAppearsIff(s: State, e: Event, organization: string, user: string)
    requires (organization, user) !in s.members
    ensures (organization, user) in Step(s, e).0.members
            <==> Founds(s, e, organization, user) || Redeems(s, e, organization, user)
    ensures Founds(s, e, organization, user) ==> Step(s, e).0.members[(organization, user)] == Member(Admin, true)
    ensures Redeems(s, e, organization, user) ==> Step(s, e).0.members[(organization, user)] == Member(s.invites[e.invite].role, true)
  {
    if e.Enter? && e.organization == organization {
      assert UsersOf(s.members, organization) == {} <==> !HasMember(s.members, organization) by {
        assert forall u :: u in UsersOf(s.members, organization) <==> (organization, u) in s.members;
      }
    }
  }

  /**
   * Nobody's membership ends but by an admin's token removing an active member other than its holder and the last
   * admin.
   */
  lemma MembershipEndsIff(s: State, e: Event, organization: string, user: string)
    requires (organization, user) in s.members
    ensures (organization, user) !in Step(s, e).0.members
            <==> && e.RemoveMember? && e.organization == organization && e.target == user && e.loads && e.stores
                 && Authorized(s, organization, e.actor) && e.actor != user && s.members[(organization, user)].active
                 && (IsAdmin(s.members, organization, user) ==>
                       exists other :: other != user && IsAdmin(s.members, organization, other))
  {
    if IsAdmin(s.members, organization, user) {
      OneAdminIsTheOnlyOne(s.members, organization, user);
    }
  }
}
