/**
 * Refresh-token families: rotation with reuse detection (section 6 of RFC 6749, section 4.14 of RFC 9700).
 *
 * A token's JTI is its position in the table, and presenting a raw token is naming that position: raw tokens
 * and identifiers are never guessed or repeated. Each service call is one atomic step.
 */
module Tokens {
  import opened Wrappers

  datatype Kind = Access | Refresh

  datatype Token = Token(user: string, organization: string, kind: Kind, family: Option<nat>, parent: Option<nat>,
                         revoked: bool, expiresAt: int)

  datatype State = State(tokens: seq<Token>, nextFamily: nat)

  datatype Config = Config(accessTtl: int, refreshTtl: int)

  /**
   * One service call. `calls` is how many storage calls succeed before one fails; `standing` is whether the
   * user, the organization and the membership are all still found when a token is rotated.
   */
  datatype Event =
    | Login(user: string, organization: string, now: int, calls: nat)
    | Present(raw: nat, now: int, standing: bool, calls: nat)
    | Logout(raw: nat, calls: nat)
    | RevokeById(jti: nat, calls: nat)

  datatype Outcome = Issued(access: nat, refresh: nat) | InvalidToken | TokenRevoked | TokenExpired | Failed | Finished

  function Revoke(tokens: seq<Token>, jti: nat): (r: seq<Token>)
    ensures |r| == |tokens|
  {
    if jti < |tokens| then tokens[jti := tokens[jti].(revoked := true)] else tokens
  }

  function RevokeFamily(tokens: seq<Token>, family: nat): (r: seq<Token>)
    ensures |r| == |tokens|
    ensures forall i :: 0 <= i < |tokens| ==>
                          r[i] == if tokens[i].family == Some(family) then tokens[i].(revoked := true) else tokens[i]
  {
    seq(|tokens|, i requires 0 <= i < |tokens| => if tokens[i].family == Some(family) then tokens[i].(revoked := true) else tokens[i])
  }

  /** An access token, then a refresh token; `calls` of the two writes succeed. */
  function Pair(s: State, config: Config, user: string, organization: string, family: nat, parent: Option<nat>,
                now: int, calls: nat)
    : (State, Outcome)
  {
    var access := Token(user, organization, Access, Some(family), None, false, now + config.accessTtl);
    var refresh := Token(user, organization, Refresh, Some(family), parent, false, now + config.refreshTtl);
    if calls == 0 then (s, Failed)
    else if calls == 1 then (s.(tokens := s.tokens + [access]), Failed)
    else (s.(tokens := s.tokens + [access] + [refresh]), Issued(|s.tokens|, |s.tokens| + 1))
  }

  /** The family a rotation continues: the token's own, or a new one for a token that never had any. */
  function Rotated(s: State, config: Config, raw: nat, now: int, standing: bool, calls: nat): (State, Outcome)
    requires raw < |s.tokens|
  {
    var token := s.tokens[raw];
    var revoked := s.(tokens := Revoke(s.tokens, raw));
    if calls == 0 then (s, Failed)
    else if !standing || calls < 4 then (revoked, Failed)
    else
      match token.family
      case Some(family) => Pair(revoked, config, token.user, token.organization, family, Some(raw), now, calls - 4)
      case None => Pair(revoked.(nextFamily := s.nextFamily + 1), config, token.user, token.organization,
                        s.nextFamily, Some(raw), now, calls - 4)
  }

  function Presented(s: State, config: Config, raw: nat, now: int, standing: bool, calls: nat): (State, Outcome) {
    if calls == 0 then (s, Failed)
    else if raw >= |s.tokens| || s.tokens[raw].kind != Refresh then (s, InvalidToken)
    else if s.tokens[raw].revoked then
      (if s.tokens[raw].family.Some? && calls > 1 then s.(tokens := RevokeFamily(s.tokens, s.tokens[raw].family.value)) else s, TokenRevoked)
    else if now > s.tokens[raw].expiresAt then (s, TokenExpired)
    else Rotated(s, config, raw, now, standing, calls - 1)
  }

  function LoggedOut(s: State, raw: nat, calls: nat): State {
    if calls < 2 || raw >= |s.tokens| then s
    else
      match s.tokens[raw].family
      case None => s.(tokens := Revoke(s.tokens, raw))
      case Some(family) => s.(tokens := RevokeFamily(s.tokens, family))
  }

  function Step(s: State, config: Config, e: Event): (State, Outcome) {
    match e
    case Login(user, organization, now, calls) =>
      Pair(s.(nextFamily := s.nextFamily + 1), config, user, organization, s.nextFamily, None, now, calls)
    case Present(raw, now, standing, calls) => Presented(s, config, raw, now, standing, calls)
    case Logout(raw, calls) => (LoggedOut(s, raw, calls), Finished)
    case RevokeById(jti, calls) => (if calls == 0 then s else s.(tokens := Revoke(s.tokens, jti)), Finished)
  }

  class AuthService {
    const config: Config
    var tokens: seq<Token>
    var nextFamily: nat

    ghost function Model(): State
      reads this
    {
      State(tokens, nextFamily)
    }

    constructor (config: Config)
      ensures Model() == State([], 0) && this.config == config
    {
      this.config, tokens, nextFamily := config, [], 0;
    }

    method RevokeTokenFamily(family: nat)
      modifies `tokens
      ensures tokens == RevokeFamily(old(tokens), family)
    {
      var n := 0;
      while n < |tokens|
        invariant n <= |tokens| == |old(tokens)|
        invariant forall i :: 0 <= i < n ==> tokens[i] == RevokeFamily(old(tokens), family)[i]
        invariant forall i :: n <= i < |tokens| ==> tokens[i] == old(tokens)[i]
      {
        if tokens[n].family == Some(family) && !tokens[n].revoked {
          tokens := tokens[n := tokens[n].(revoked := true)];
        }
        n := n + 1;
      }
    }

    method RevokeToken(jti: nat)
      modifies `tokens
      ensures tokens == Revoke(old(tokens), jti)
    {
      if jti < |tokens| {
        tokens := tokens[jti := tokens[jti].(revoked := true)];
      }
    }

    method GenerateTokenPair(user: string, organization: string, family: nat, parent: Option<nat>, now: int, calls: nat)
      returns (outcome: Outcome)
      modifies `tokens
      ensures (Model(), outcome) == Pair(old(Model()), config, user, organization, family, parent, now, calls)
    {
      if calls == 0 {
        return Failed;
      }
      var access := |tokens|;
      tokens := tokens + [Token(user, organization, Access, Some(family), None, false, now + config.accessTtl)];
      if calls == 1 {
        return Failed;
      }
      tokens := tokens + [Token(user, organization, Refresh, Some(family), parent, false, now + config.refreshTtl)];
      return Issued(access, access + 1);
    }

    method LoginTo(user: string, organization: string, now: int, calls: nat) returns (outcome: Outcome)
      modifies this
      ensures (Model(), outcome) == Step(old(Model()), config, Login(user, organization, now, calls))
    {
      var family := nextFamily;
      nextFamily := nextFamily + 1;
      outcome := GenerateTokenPair(user, organization, family, None, now, calls);
    }

    method RefreshTokens(raw: nat, now: int, standing: bool, calls: nat) returns (outcome: Outcome)
      modifies this
      ensures (Model(), outcome) == Step(old(Model()), config, Present(raw, now, standing, calls))
    {
      if calls == 0 {
        return Failed;
      }
      if raw >= |tokens| || tokens[raw].kind != Refresh {
        return InvalidToken;
      }
      var token := tokens[raw];
      if token.revoked {
        if token.family.Some? && calls > 1 {
          RevokeTokenFamily(token.family.value);
        }
        return TokenRevoked;
      }
      if now > token.expiresAt {
        return TokenExpired;
      }
      if calls == 1 {
        return Failed;
      }
      RevokeToken(raw);
      if !standing || calls < 5 {
        return Failed;
      }
      var family;
      if token.family.Some? {
        family := token.family.value;
      } else {
        family := nextFamily;
        nextFamily := nextFamily + 1;
      }
      outcome := GenerateTokenPair(token.user, token.organization, family, Some(raw), now, calls - 5);
    }

    method RevokeRefreshTokenFamily(raw: nat, calls: nat)
      modifies this
      ensures Model() == Step(old(Model()), config, Logout(raw, calls)).0
    {
      if calls < 2 || raw >= |tokens| {
        return;
      }
      var family := tokens[raw].family;
      match family
      case None => RevokeToken(raw);
      case Some(id) => RevokeTokenFamily(id);
    }
  }

  // ── what every run keeps ───────────────────────────────────────────────────

  /** Tokens of one family belong to one user and organization. */
  predicate Kin(a: Token, b: Token) {
    a.family.Some? && a.family == b.family
  }

  /** `p` is the refresh token just before `j` in its family. */
  ghost predicate Precedes(tokens: seq<Token>, p: nat, j: nat)
    requires j < |tokens|
  {
    && p < j && tokens[p].kind == Refresh && Kin(tokens[p], tokens[j])
    && forall k :: p < k < j ==> !(tokens[k].kind == Refresh && Kin(tokens[k], tokens[j]))
  }

  ghost predicate First(tokens: seq<Token>, j: nat)
    requires j < |tokens|
  {
    forall k :: 0 <= k < j ==> !(tokens[k].kind == Refresh && Kin(tokens[k], tokens[j]))
  }

  /**
   * A refresh token's parent is the one before it in its family; the first of a family has none, or rotated out
   * of a token that had no family. The parent is older, revoked, and of the same user and organization.
   */
  ghost predicate Linked(tokens: seq<Token>, j: nat)
    requires j < |tokens|
  {
    && (tokens[j].parent.Some? ==>
          var p := tokens[j].parent.value;
          && p < j && tokens[p].kind == Refresh && tokens[p].revoked
          && tokens[p].user == tokens[j].user && tokens[p].organization == tokens[j].organization
          && (tokens[p].family.Some? ==> Precedes(tokens, p, j)))
    && (tokens[j].parent.None? || tokens[tokens[j].parent.value].family.None? ==> First(tokens, j))
  }

  /** Families are numbered as they are opened, and one family is one user's in one organization. */
  ghost predicate KinAgree(s: State) {
    && (forall i :: 0 <= i < |s.tokens| && s.tokens[i].family.Some? ==> s.tokens[i].family.value < s.nextFamily)
    && (forall i, j :: 0 <= i < |s.tokens| && 0 <= j < |s.tokens| && Kin(s.tokens[i], s.tokens[j]) ==>
          s.tokens[i].user == s.tokens[j].user && s.tokens[i].organization == s.tokens[j].organization)
  }

  /** At most one refresh token of a family is unrevoked, and it is the newest. */
  ghost predicate OneLive(tokens: seq<Token>) {
    forall i, j :: 0 <= i < j < |tokens| && tokens[i].kind == Refresh && tokens[j].kind == Refresh && Kin(tokens[i], tokens[j]) ==>
      tokens[i].revoked
  }

  ghost predicate Chained(tokens: seq<Token>) {
    forall j :: 0 <= j < |tokens| && tokens[j].kind == Refresh && tokens[j].family.Some? ==> Linked(tokens, j)
  }

  /** No token was rotated into two, and only a refresh token of a family has a parent. */
  ghost predicate RotatedOnce(tokens: seq<Token>) {
    && (forall i, j :: 0 <= i < j < |tokens| && tokens[j].parent.Some? ==> tokens[i].parent != tokens[j].parent)
    && (forall j :: 0 <= j < |tokens| && tokens[j].parent.Some? ==> tokens[j].kind == Refresh && tokens[j].family.Some?)
  }

  ghost predicate Valid(s: State) {
    KinAgree(s) && OneLive(s.tokens) && Chained(s.tokens) && RotatedOnce(s.tokens)
  }

  /** Revoking more tokens changes nothing else. */
  ghost predicate OnlyRevokes(a: seq<Token>, b: seq<Token>) {
    |a| == |b| && forall i :: 0 <= i < |a| ==> b[i] == a[i] || b[i] == a[i].(revoked := true)
  }

  lemma RevokingKeepsValid(s: State, tokens: seq<Token>)
    requires Valid(s) && OnlyRevokes(s.tokens, tokens)
    ensures Valid(s.(tokens := tokens))
  {
    forall j | 0 <= j < |tokens| && tokens[j].kind == Refresh && tokens[j].family.Some?
      ensures Linked(tokens, j)
    {
      assert Linked(s.tokens, j);
      if tokens[j].parent.Some? && tokens[tokens[j].parent.value].family.Some? {
        assert Precedes(s.tokens, tokens[j].parent.value, j);
      }
    }
  }

  function FamilyOf(token: Token, otherwise: nat): nat {
    if token.family.Some? then token.family.value else otherwise
  }

  /** What a pair may be issued for: a family nobody holds a live token of, after its newest refresh token. */
  ghost predicate Continues(s: State, user: string, organization: string, family: nat, parent: Option<nat>) {
    && family < s.nextFamily
    && (forall i :: 0 <= i < |s.tokens| && s.tokens[i].family == Some(family) ==>
          s.tokens[i].user == user && s.tokens[i].organization == organization
          && (s.tokens[i].kind == Refresh ==> s.tokens[i].revoked))
    && (forall i :: 0 <= i < |s.tokens| && parent.Some? ==> s.tokens[i].parent != parent)
    && (parent.Some? ==>
          var p := parent.value;
          && p < |s.tokens| && s.tokens[p].kind == Refresh && s.tokens[p].revoked
          && s.tokens[p].user == user && s.tokens[p].organization == organization
          && (s.tokens[p].family.Some? ==> s.tokens[p].family == Some(family))
          && (forall k :: p < k < |s.tokens| && s.tokens[p].family.Some? ==>
                !(s.tokens[k].kind == Refresh && s.tokens[k].family == Some(family))))
    && (parent.None? || s.tokens[parent.value].family.None? ==>
          forall k :: 0 <= k < |s.tokens| ==> s.tokens[k].family != Some(family))
  }

  lemma ChainGrows(tokens: seq<Token>, token: Token)
    requires Chained(tokens)
    requires token.kind == Refresh && token.family.Some? ==> Linked(tokens + [token], |tokens|)
    ensures Chained(tokens + [token])
  {
    var after := tokens + [token];
    forall j | 0 <= j < |tokens| && tokens[j].kind == Refresh && tokens[j].family.Some?
      ensures Linked(after, j)
    {
      assert Linked(tokens, j);
      if tokens[j].parent.Some? && tokens[tokens[j].parent.value].family.Some? {
        assert Precedes(tokens, tokens[j].parent.value, j);
      }
    }
  }

  /** What lets one more token in. */
  ghost predicate Fits(s: State, token: Token) {
    && (token.family.Some? ==> token.family.value < s.nextFamily)
    && (forall i :: 0 <= i < |s.tokens| && Kin(s.tokens[i], token) ==>
          s.tokens[i].user == token.user && s.tokens[i].organization == token.organization
          && (token.kind == Refresh && s.tokens[i].kind == Refresh ==> s.tokens[i].revoked))
    && (token.parent.Some? ==>
          token.kind == Refresh && token.family.Some? && forall i :: 0 <= i < |s.tokens| ==> s.tokens[i].parent != token.parent)
    && (token.kind == Refresh && token.family.Some? ==> Linked(s.tokens + [token], |s.tokens|))
  }

  lemma TokenFits(s: State, token: Token)
    requires Valid(s) && Fits(s, token)
    ensures Valid(s.(tokens := s.tokens + [token]))
  {
    var after := s.(tokens := s.tokens + [token]);
    assert KinAgree(after);
    assert OneLive(after.tokens);
    assert RotatedOnce(after.tokens);
    ChainGrows(s.tokens, token);
  }

  lemma AccessKeepsValid(s: State, access: Token, family: nat, parent: Option<nat>)
    requires Valid(s) && Continues(s, access.user, access.organization, family, parent)
    requires access.kind == Access && access.family == Some(family) && access.parent.None?
    ensures Valid(s.(tokens := s.tokens + [access]))
  {
    TokenFits(s, access);
  }

  lemma RefreshFits(s: State, access: Token, refresh: Token, family: nat)
    requires Continues(s, refresh.user, refresh.organization, family, refresh.parent)
    requires access.kind == Access && access.family == Some(family) && access.parent.None?
    requires access.user == refresh.user && access.organization == refresh.organization
    requires refresh.kind == Refresh && refresh.family == Some(family)
    ensures Fits(s.(tokens := s.tokens + [access]), refresh)
  {
  }

  lemma BothKeepValid(s: State, access: Token, refresh: Token, family: nat)
    requires Valid(s) && Continues(s, refresh.user, refresh.organization, family, refresh.parent)
    requires access.kind == Access && access.family == Some(family) && access.parent.None?
    requires access.user == refresh.user && access.organization == refresh.organization
    requires refresh.kind == Refresh && refresh.family == Some(family)
    ensures Valid(s.(tokens := s.tokens + [access]))
    ensures Valid(s.(tokens := s.tokens + [access] + [refresh]))
  {
    AccessKeepsValid(s, access, family, refresh.parent);
    RefreshFits(s, access, refresh, family);
    TokenFits(s.(tokens := s.tokens + [access]), refresh);
  }

  lemma PairKeepsValid(s: State, config: Config, user: string, organization: string, family: nat, parent: Option<nat>,
                       now: int, calls: nat)
    requires Valid(s) && Continues(s, user, organization, family, parent)
    ensures Valid(Pair(s, config, user, organization, family, parent, now, calls).0)
  {
    var access := Token(user, organization, Access, Some(family), None, false, now + config.accessTtl);
    var refresh := Token(user, organization, Refresh, Some(family), parent, false, now + config.refreshTtl);
    var after := Pair(s, config, user, organization, family, parent, now, calls).0;
    if calls == 0 {
      assert after == s;
    } else {
      BothKeepValid(s, access, refresh, family);
      assert after == if calls == 1 then s.(tokens := s.tokens + [access]) else s.(tokens := s.tokens + [access] + [refresh]);
    }
  }

  lemma RotationContinues(s: State, raw: nat, fresher: nat)
    requires Valid(s) && raw < |s.tokens| && s.tokens[raw].kind == Refresh && !s.tokens[raw].revoked
    requires fresher == if s.tokens[raw].family.Some? then s.nextFamily else s.nextFamily + 1
    ensures var t := s.tokens[raw];
            Continues(State(Revoke(s.tokens, raw), fresher), t.user, t.organization, FamilyOf(t, s.nextFamily),
                      Some(raw))
  {
    assert forall i :: 0 <= i < |s.tokens| && s.tokens[i].parent.Some? ==> Linked(s.tokens, i);
  }

  lemma LoginKeepsValid(s: State, config: Config, user: string, organization: string, now: int, calls: nat)
    requires Valid(s)
    ensures Valid(Pair(s.(nextFamily := s.nextFamily + 1), config, user, organization, s.nextFamily, None, now, calls).0)
  {
    MoreFamiliesKeepValid(s);
    PairKeepsValid(s.(nextFamily := s.nextFamily + 1), config, user, organization, s.nextFamily, None, now, calls);
  }

  lemma PresentKeepsValid(s: State, config: Config, raw: nat, now: int, standing: bool, calls: nat)
    requires Valid(s)
    ensures Valid(Presented(s, config, raw, now, standing, calls).0)
  {
    var after := Presented(s, config, raw, now, standing, calls).0;
    if calls > 0 && raw < |s.tokens| && s.tokens[raw].kind == Refresh {
      if s.tokens[raw].revoked {
        assert OnlyRevokes(s.tokens, after.tokens);
        RevokingKeepsValid(s, after.tokens);
      } else if now <= s.tokens[raw].expiresAt {
        RotationKeepsValid(s, config, raw, now, standing, calls - 1);
      }
    }
  }

  lemma LogoutKeepsValid(s: State, raw: nat, calls: nat)
    requires Valid(s)
    ensures Valid(LoggedOut(s, raw, calls))
  {
    RevokingKeepsValid(s, LoggedOut(s, raw, calls).tokens);
  }

  /** One call keeps the families well formed. */
  lemma StepKeepsValid(s: State, config: Config, e: Event)
    requires Valid(s)
    ensures Valid(Step(s, config, e).0)
  {
    match e
    case Login(user, organization, now, calls) => LoginKeepsValid(s, config, user, organization, now, calls);
    case Present(raw, now, standing, calls) => PresentKeepsValid(s, config, raw, now, standing, calls);
    case Logout(raw, calls) => LogoutKeepsValid(s, raw, calls);
    case RevokeById(jti, _) => RevokingKeepsValid(s, Revoke(s.tokens, jti));
  }

  lemma MoreFamiliesKeepValid(s: State)
    requires Valid(s)
    ensures Valid(s.(nextFamily := s.nextFamily + 1))
  {
  }

  lemma RotationKeepsValid(s: State, config: Config, raw: nat, now: int, standing: bool, calls: nat)
    requires Valid(s) && raw < |s.tokens| && s.tokens[raw].kind == Refresh && !s.tokens[raw].revoked
    ensures Valid(Rotated(s, config, raw, now, standing, calls).0)
  {
    var token, revoked := s.tokens[raw], s.(tokens := Revoke(s.tokens, raw));
    RevokingKeepsValid(s, revoked.tokens);
    if standing && calls >= 4 {
      var fresher := if token.family.Some? then s.nextFamily else s.nextFamily + 1;
      RotationContinues(s, raw, fresher);
      MoreFamiliesKeepValid(revoked);
      PairKeepsValid(revoked.(nextFamily := fresher), config, token.user, token.organization,
                     FamilyOf(token, s.nextFamily), Some(raw), now, calls - 4);
    }
  }

  function Exec(s: State, config: Config, events: seq<Event>): State {
    if events == [] then s
    else Step(Exec(s, config, events[..|events| - 1]), config, events[|events| - 1]).0
  }

  /**
   * Every run of logins, rotations and logouts keeps every family well formed: at most one unrevoked refresh
   * token in each, and parent links that form one chain within one family, user and organization.
   */
  lemma {:induction false} EveryRunKeepsFamilies(s: State, config: Config, events: seq<Event>)
    requires Valid(s)
    ensures Valid(Exec(s, config, events))
  {
    if events != [] {
      EveryRunKeepsFamilies(s, config, events[..|events| - 1]);
      StepKeepsValid(Exec(s, config, events[..|events| - 1]), config, events[|events| - 1]);
    }
  }

  /** The tokens met walking parent links back from `j`, oldest first. */
  function Ancestry(tokens: seq<Token>, j: nat): seq<nat>
    requires j < |tokens|
    decreases j
  {
    match tokens[j].parent
    case Some(p) => if p < j then Ancestry(tokens, p) + [j] else [j]
    case None => [j]
  }

  /** Walking back from any refresh token meets every older refresh token of its family, and nobody else's. */
  lemma {:induction false} AncestryIsTheFamily(s: State, j: nat, k: nat)
    requires Valid(s) && j < |s.tokens| && s.tokens[j].kind == Refresh && s.tokens[j].family.Some?
    requires k < |s.tokens| && Kin(s.tokens[k], s.tokens[j])
    ensures k in Ancestry(s.tokens, j) <==> s.tokens[k].kind == Refresh && k <= j
    decreases j
  {
    assert Linked(s.tokens, j);
    match s.tokens[j].parent
    case None =>
    case Some(p) =>
      if s.tokens[p].family.Some? {
        assert Precedes(s.tokens, p, j);
        AncestryIsTheFamily(s, p, k);
      } else {
        assert First(s.tokens, j);
        RootlessAncestry(s, p, k);
      }
  }

  /** A token without a family was never issued by this service, so it has no parent. */
  lemma RootlessAncestry(s: State, p: nat, k: nat)
    requires Valid(s) && p < |s.tokens| && s.tokens[p].family.None? && k < |s.tokens| && s.tokens[k].family.Some?
    ensures k !in Ancestry(s.tokens, p)
  {
  }

  ghost predicate LiveRefresh(s: State, i: nat, family: nat) {
    i < |s.tokens| && s.tokens[i].kind == Refresh && s.tokens[i].family == Some(family) && !s.tokens[i].revoked
  }

  /**
   * Presenting the live token of a family spends it: afterwards the family's only live refresh token is the one
   * handed out, and when the call fails past the revocation there is none and the user must log in again.
   */
  lemma RotationHandsOver(s: State, config: Config, raw: nat, family: nat, now: int, standing: bool, calls: nat)
    requires Valid(s) && LiveRefresh(s, raw, family) && now <= s.tokens[raw].expiresAt && calls >= 2
    ensures var (after, outcome) := Step(s, config, Present(raw, now, standing, calls));
            && (outcome.Issued? <==> standing && calls >= 7)
            && (outcome.Issued? || outcome == Failed)
            && forall i :: LiveRefresh(after, i, family) <==> outcome.Issued? && i == outcome.refresh
  {
    var (after, outcome) := Step(s, config, Present(raw, now, standing, calls));
    assert forall i :: 0 <= i < |s.tokens| && i != raw ==> after.tokens[i] == s.tokens[i];
    assert forall i :: 0 <= i < |s.tokens| && LiveRefresh(s, i, family) ==> i == raw by {
      assert forall i :: 0 <= i < |s.tokens| && LiveRefresh(s, i, family) ==> Kin(s.tokens[i], s.tokens[raw]) && Kin(s.tokens[raw], s.tokens[i]);
    }
  }

  /**
   * A pair handed out by any call rotates: its refresh token, and not its access token, buys the next pair from the
   * moment it is issued until the refresh lifetime has passed and not after.
   */
  lemma IssuedPairRotatesUntilItExpires(s: State, config: Config, e: Event, later: int, calls: nat)
    requires Valid(s) && Step(s, config, e).1.Issued? && calls >= 7
    ensures e.Login? || e.Present?
    ensures var (after, issued) := Step(s, config, e);
            && issued.access < |after.tokens| && issued.refresh < |after.tokens|
            && Step(after, config, Present(issued.access, later, true, calls)) == (after, InvalidToken)
            && (Step(after, config, Present(issued.refresh, later, true, calls)).1.Issued?
                <==> later <= e.now + config.refreshTtl)
            && (later > e.now + config.refreshTtl ==>
                  Step(after, config, Present(issued.refresh, later, true, calls)) == (after, TokenExpired))
  {
  }

  // ── reuse detection ────────────────────────────────────────────────────────

  /** No token of the family works any more. */
  ghost predicate Dead(s: State, family: nat) {
    && family < s.nextFamily
    && forall i :: 0 <= i < |s.tokens| && s.tokens[i].family == Some(family) ==> s.tokens[i].revoked
  }

  lemma StepKeepsDead(s: State, config: Config, e: Event, family: nat)
    requires Dead(s, family)
    ensures Dead(Step(s, config, e).0, family)
  {
  }

  /** A dead family stays dead, whatever is called afterwards. */
  lemma {:induction false} DeadFamilyStaysDead(s: State, config: Config, events: seq<Event>, family: nat)
    requires Dead(s, family)
    ensures Dead(Exec(s, config, events), family)
  {
    if events != [] {
      var before := Exec(s, config, events[..|events| - 1]);
      DeadFamilyStaysDead(s, config, events[..|events| - 1], family);
      StepKeepsDead(before, config, events[|events| - 1], family);
    }
  }

  /**
   * Presenting a revoked token of a family kills the family exactly when it is a refresh token whose family
   * revocation got through; an access token is turned away first, and a failed revocation goes unreported.
   */
  lemma ReuseKillsTheFamilyIff(s: State, config: Config, raw: nat, now: int, standing: bool, calls: nat)
    requires Valid(s) && raw < |s.tokens| && s.tokens[raw].revoked && s.tokens[raw].family.Some?
    ensures var family := s.tokens[raw].family.value;
            Dead(Step(s, config, Present(raw, now, standing, calls)).0, family)
            <==> Dead(s, family) || (s.tokens[raw].kind == Refresh && calls > 1)
    ensures Step(s, config, Present(raw, now, standing, calls)).1
            == if calls == 0 then Failed else if s.tokens[raw].kind == Refresh then TokenRevoked else InvalidToken
  {
  }

  /** The whole promise: once reuse is detected, no later run brings a token of that family back. */
  lemma ReuseIsFinal(s: State, config: Config, raw: nat, now: int, standing: bool, calls: nat, later: seq<Event>)
    requires Valid(s) && raw < |s.tokens| && s.tokens[raw].revoked && s.tokens[raw].family.Some?
    requires s.tokens[raw].kind == Refresh && calls > 1
    ensures Dead(Exec(Step(s, config, Present(raw, now, standing, calls)).0, config, later), s.tokens[raw].family.value)
  {
    ReuseKillsTheFamilyIff(s, config, raw, now, standing, calls);
    DeadFamilyStaysDead(Step(s, config, Present(raw, now, standing, calls)).0, config, later,
                        s.tokens[raw].family.value);
  }
}
