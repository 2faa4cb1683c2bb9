/**
 The token, authentication and team services over the stored rows. Each method is proved against the
 step of Accounts that specifies it; the ghost fields record the history and the clock.
 */
module AccountService {
  import opened Options
  import opened Accounts
  import opened AccountRuns

  class Services {
    var users: map<string, User>
    var tokens: map<string, RefreshToken>
    var assignments: set<(string, string)>
    const ttl: int
    ghost var history: History
    ghost var clock: int

    ghost function Now(): State
      reads this
    {
      State(users, tokens, assignments, ttl, clock, history)
    }

    ghost predicate Valid()
      reads this
    {
      Inv(Now())
    }

    constructor (ttl: int, start: int)
      ensures Valid() && Now() == Empty(ttl, start)
    {
      users, tokens, assignments := map[], map[], {};
      this.ttl := ttl;
      history, clock := History({}, map[], map[], map[], {}, map[]), start;
      new;
      EmptySound(ttl, start);
    }

    // ---------- queries ----------

    method FindByEmail(email: string) returns (r: Option<string>)
      requires Valid()
      ensures r == ByEmail(users, email)
    {
      if u :| u in users && users[u].email == email {
        OneRow(Now(), u);
        return Some(u);
      }
      return None;
    }

    method FindByInvite(link: string) returns (r: Option<string>)
      requires Valid()
      ensures r == ByInvite(users, link)
    {
      if u :| u in users && HasInvite(users[u], link) {
        OneInvite(Now(), u, link);
        return Some(u);
      }
      return None;
    }

    method FindByReset(link: string) returns (r: Option<string>)
      requires Valid()
      ensures r == ByReset(users, link)
    {
      if u :| u in users && HasReset(users[u], link) {
        OneReset(Now(), u, link);
        return Some(u);
      }
      return None;
    }

    // ---------- TokenService ----------

    method StoreRefreshToken(at: int, tenant: string, user: string, raw: string, ghost first: string)
      modifies this
      ensures Now() == Store(old(Now()), at, tenant, user, raw, first)
    {
      tokens := tokens[raw := RefreshToken(tenant, user, at + ttl, None)];
      history := history.(issued := history.issued + {raw}, chain := history.chain[raw := first],
                          holder := history.holder[raw := user]);
    }

    method RevokeToken(at: int, raw: string)
      modifies this
      ensures Now() == Revoke(old(Now()), at, {raw})
    {
      history := Revoke(Now(), at, {raw}).history;
      if raw in tokens && tokens[raw].revokedAt.None? {
        tokens := tokens[raw := tokens[raw].(revokedAt := Some(at))];
      }
      assert tokens == Revoke(old(Now()), at, {raw}).tokens;
    }

    method RevokeAllUserTokens(at: int, user: string)
      modifies this
      ensures Now() == RevokeAll(old(Now()), at, user)
    {
      history := RevokeAll(Now(), at, user).history;
      tokens := map raw | raw in tokens ::
        if tokens[raw].user == user && tokens[raw].revokedAt.None? then tokens[raw].(revokedAt := Some(at)) else tokens[raw];
      assert tokens == RevokeAll(old(Now()), at, user).tokens;
    }

    method DeleteExpiredTokens(at: int) returns (count: int)
      requires Valid() && Allowed(Now(), DeleteExpired(at))
      modifies this
      ensures Valid() && Now() == Step(old(Now()), DeleteExpired(at))
      ensures count == |old(tokens)| - |tokens|
    {
      StepSound(Now(), DeleteExpired(at));
      clock := at;
      var kept := map raw | raw in tokens && !Stale(tokens[raw], at) :: tokens[raw];
      count := |tokens| - |kept|;
      tokens := kept;
    }

    method ValidateAndRotateRefreshToken(at: int, presented: string, raw: string) returns (out: Outcome)
      requires Valid() && Allowed(Now(), Refresh(at, presented, raw)) && presented != ""
      modifies this
      ensures Valid() && Now() == Step(old(Now()), Refresh(at, presented, raw))
      ensures out == Answer(old(Now()), Refresh(at, presented, raw))
    {
      hide Inv, Store, RevokeAll, Revoke;
      StepSound(Now(), Refresh(at, presented, raw));
      RevokeUsers();
      clock := at;
      ghost var s := Now();
      if presented !in tokens {
        return Refused(InvalidToken);
      }
      var t := tokens[presented];
      if t.revokedAt.Some? {
        RevokeAllUserTokens(at, t.user);
        return Refused(Reused);
      }
      if t.expiresAt < at {
        return Refused(Expired);
      }
      RevokeToken(at, presented);
      if t.user !in users {
        return Refused(NotFound);
      }
      var user := users[t.user];
      if !user.active {
        return Refused(Inactive);
      }
      ghost var first := if presented in s.history.chain then s.history.chain[presented] else presented;
      StoreRefreshToken(at, t.tenant, t.user, raw, first);
      return Session(t.user, user.tenant, user.role, raw);
    }

    // ---------- AuthService ----------

    method RegisterAgency(at: int, newUser: string, newTenant: string, email: string, password: string, raw: string)
      returns (out: Outcome)
      requires Valid() && Allowed(Now(), Register(at, newUser, newTenant, email, password, raw))
      modifies this
      ensures Valid() && Now() == Step(old(Now()), Register(at, newUser, newTenant, email, password, raw))
      ensures out == Answer(old(Now()), Register(at, newUser, newTenant, email, password, raw))
    {
      hide Inv, Store;
      StepSound(Now(), Register(at, newUser, newTenant, email, password, raw));
      var existing := FindByEmail(email);
      clock := at;
      if existing.Some? {
        return Refused(Conflict);
      }
      users := users[newUser := User(email, newTenant, Owner, true, Some(password), None, None, None)];
      history := history.(owners := history.owners[newUser := newTenant]);
      StoreRefreshToken(at, newTenant, newUser, raw, raw);
      return Session(newUser, newTenant, Owner, raw);
    }

    method SignIn(at: int, email: string, password: string, dummyMatches: bool, raw: string) returns (out: Outcome)
      requires Valid() && Allowed(Now(), Login(at, email, password, dummyMatches, raw))
      modifies this
      ensures Valid() && Now() == Step(old(Now()), Login(at, email, password, dummyMatches, raw))
      ensures out == Answer(old(Now()), Login(at, email, password, dummyMatches, raw))
    {
      hide Inv, Store;
      StepSound(Now(), Login(at, email, password, dummyMatches, raw));
      var row := FindByEmail(email);
      clock := at;
      var matches := dummyMatches;
      if row.Some? && users[row.value].password.Some? {
        matches := users[row.value].password.value == password;
      }
      if row.None? || !matches {
        return Refused(BadCredentials);
      }
      var user := users[row.value];
      if !user.active {
        return Refused(Inactive);
      }
      if user.password.None? {
        return Refused(NoPassword);
      }
      StoreRefreshToken(at, user.tenant, row.value, raw, raw);
      return Session(row.value, user.tenant, user.role, raw);
    }

    method RefreshSession(at: int, presented: string, raw: string) returns (out: Outcome)
      requires Valid() && Allowed(Now(), Refresh(at, presented, raw))
      modifies this
      ensures Valid() && Now() == Step(old(Now()), Refresh(at, presented, raw))
      ensures out == Answer(old(Now()), Refresh(at, presented, raw))
    {
      if presented == "" {
        StepSound(Now(), Refresh(at, presented, raw));
        clock := at;
        return Refused(NoToken);
      }
      out := ValidateAndRotateRefreshToken(at, presented, raw);
    }

    method SignOut(at: int, presented: string)
      requires Valid() && Allowed(Now(), Logout(at, presented))
      modifies this
      ensures Valid() && Now() == Step(old(Now()), Logout(at, presented))
    {
      StepSound(Now(), Logout(at, presented));
      clock := at;
      if presented != "" {
        RevokeToken(at, presented);
      }
    }

    method ForgotPassword(at: int, email: string, raw: string)
      requires Valid() && Allowed(Now(), Forgot(at, email, raw))
      modifies this
      ensures Valid() && Now() == Step(old(Now()), Forgot(at, email, raw))
    {
      hide Inv;
      StepSound(Now(), Forgot(at, email, raw));
      var row := FindByEmail(email);
      clock := at;
      if row.Some? && users[row.value].active {
        users := users[row.value := users[row.value].(reset := Some(Ticket(raw, at + RESET_TTL)))];
        history := history.(issued := history.issued + {raw});
      }
    }

    method ResetPassword(at: int, link: string, password: string) returns (out: Outcome)
      requires Valid() && Allowed(Now(), Reset(at, link, password))
      modifies this
      ensures Valid() && Now() == Step(old(Now()), Reset(at, link, password))
      ensures out == Answer(old(Now()), Reset(at, link, password))
    {
      hide Inv, RevokeAll;
      StepSound(Now(), Reset(at, link, password));
      var row := FindByReset(link);
      clock := at;
      if row.None? {
        return Refused(InvalidToken);
      }
      var user := users[row.value];
      if !user.active {
        return Refused(Inactive);
      }
      if user.reset.value.expiresAt < at {
        return Refused(Expired);
      }
      users := users[row.value := user.(password := Some(password), reset := None)];
      history := history.(spent := history.spent + {link});
      RevokeAllUserTokens(at, row.value);
      return Done;
    }

    // ---------- TeamService ----------

    method InviteStaffMember(at: int, tenant: string, email: string, withinLimits: bool, stillWithin: bool,
                             newUser: string, raw: string) returns (out: Outcome)
      requires Valid() && Allowed(Now(), InviteStaff(at, tenant, email, withinLimits, stillWithin, newUser, raw))
      modifies this
      ensures Valid() && Now() == Step(old(Now()), InviteStaff(at, tenant, email, withinLimits, stillWithin, newUser, raw))
      ensures out == Answer(old(Now()), InviteStaff(at, tenant, email, withinLimits, stillWithin, newUser, raw))
    {
      hide Inv;
      StepSound(Now(), InviteStaff(at, tenant, email, withinLimits, stillWithin, newUser, raw));
      var existing := FindByEmail(email);
      clock := at;
      if !withinLimits {
        return Refused(LimitReached);
      }
      if existing.Some? {
        if users[existing.value].active {
          return Refused(Conflict);
        }
        if users[existing.value].invite.Some? {
          return Refused(AlreadyInvited);
        }
      }
      var ticket := Some(Ticket(raw, at + INVITE_TTL));
      if !stillWithin {
        return Refused(LimitReached);
      }
      if existing.Some? {
        var user := users[existing.value];
        users := users[existing.value := user.(tenant := tenant, role := Staff, active := false, invite := ticket, password := None)];
      } else {
        users := users[newUser := User(email, tenant, Staff, false, None, ticket, None, None)];
      }
      history := history.(issued := history.issued + {raw});
      return Done;
    }

    method AcceptInvite(at: int, link: string, password: string, clientActive: bool, raw: string) returns (out: Outcome)
      requires Valid() && Allowed(Now(), Accept(at, link, password, clientActive, raw))
      modifies this
      ensures Valid() && Now() == Step(old(Now()), Accept(at, link, password, clientActive, raw))
      ensures out == Answer(old(Now()), Accept(at, link, password, clientActive, raw))
    {
      hide Inv, Store;
      StepSound(Now(), Accept(at, link, password, clientActive, raw));
      var row := FindByInvite(link);
      clock := at;
      if row.None? {
        return Refused(InvalidToken);
      }
      var u, user := row.value, users[row.value];
      if user.invite.value.expiresAt < at {
        return Refused(Expired);
      }
      if user.pendingClient.Some? {
        if !clientActive {
          return Refused(ClientGone);
        }
      }
      users := users[u := user.(password := Some(password), active := true, invite := None, pendingClient := None)];
      if user.pendingClient.Some? {
        assignments := assignments + {(u, user.pendingClient.value)};
      }
      history := history.(spent := history.spent + {link});
      StoreRefreshToken(at, user.tenant, u, raw, raw);
      return Session(u, user.tenant, user.role, raw);
    }

    method Resend(at: int, tenant: string, email: string, raw: string) returns (out: Outcome)
      requires Valid() && Allowed(Now(), ResendInvite(at, tenant, email, raw))
      modifies this
      ensures Valid() && Now() == Step(old(Now()), ResendInvite(at, tenant, email, raw))
      ensures out == Answer(old(Now()), ResendInvite(at, tenant, email, raw))
    {
      hide Inv;
      StepSound(Now(), ResendInvite(at, tenant, email, raw));
      var row := FindByEmail(email);
      clock := at;
      if row.None? || users[row.value].tenant != tenant || users[row.value].active {
        return Refused(NotFound);
      }
      users := users[row.value := users[row.value].(invite := Some(Ticket(raw, at + INVITE_TTL)))];
      history := history.(issued := history.issued + {raw});
      return Done;
    }

    method ResendToClient(at: int, tenant: string, email: string, raw: string) returns (out: Outcome)
      requires Valid() && Allowed(Now(), ResendClientInvite(at, tenant, email, raw))
      modifies this
      ensures Valid() && Now() == Step(old(Now()), ResendClientInvite(at, tenant, email, raw))
      ensures out == Answer(old(Now()), ResendClientInvite(at, tenant, email, raw))
    {
      hide Inv;
      StepSound(Now(), ResendClientInvite(at, tenant, email, raw));
      var row := FindByEmail(email);
      clock := at;
      if row.None? || users[row.value].tenant != tenant || users[row.value].active || users[row.value].role != ClientUser {
        return Refused(NotFound);
      }
      users := users[row.value := users[row.value].(invite := Some(Ticket(raw, at + INVITE_TTL)))];
      history := history.(issued := history.issued + {raw});
      return Done;
    }

    method InviteClientUser(at: int, tenant: string, client: string, clientFound: bool, email: string,
                            newUser: string, raw: string) returns (out: Outcome)
      requires Valid() && Allowed(Now(), InviteClient(at, tenant, client, clientFound, email, newUser, raw))
      modifies this
      ensures Valid() && Now() == Step(old(Now()), InviteClient(at, tenant, client, clientFound, email, newUser, raw))
      ensures out == Answer(old(Now()), InviteClient(at, tenant, client, clientFound, email, newUser, raw))
    {
      hide Inv;
      StepSound(Now(), InviteClient(at, tenant, client, clientFound, email, newUser, raw));
      var existing := FindByEmail(email);
      clock := at;
      if !clientFound {
        return Refused(NotFound);
      }
      if existing.Some? {
        if !users[existing.value].active {
          return Refused(AlreadyInvited);
        }
        return Refused(Conflict);
      }
      var ticket := Some(Ticket(raw, at + INVITE_TTL));
      users := users[newUser := User(email, tenant, ClientUser, false, None, ticket, None, Some(client))];
      history := history.(issued := history.issued + {raw});
      return Done;
    }

    method RemoveTeamMember(at: int, tenant: string, requester: string, target: string) returns (out: Outcome)
      requires Valid() && Allowed(Now(), Remove(at, tenant, requester, target))
      modifies this
      ensures Valid() && Now() == Step(old(Now()), Remove(at, tenant, requester, target))
      ensures out == Answer(old(Now()), Remove(at, tenant, requester, target))
    {
      hide Inv, RevokeAll;
      StepSound(Now(), Remove(at, tenant, requester, target));
      clock := at;
      if target !in users || users[target].tenant != tenant {
        return Refused(NotFound);
      }
      if target == requester {
        return Refused(Yourself);
      }
      if users[target].role == Owner {
        return Refused(OwnerStays);
      }
      users := users[target := users[target].(active := false, invite := None)];
      RevokeAllUserTokens(at, target);
      return Done;
    }
  }
}
