/**
 What each account operation answers and writes, in terms of the stored rows: who has the e-mail, the link
 or the token, and nothing about how it is looked up.
 */
module AccountAnswers {
  import opened Options
  import opened Accounts
  import opened AccountRuns

  predicate Has(s: State, u: string, email: string) { u in s.users && s.users[u].email == email }

  ghost predicate Nobody(s: State, email: string) { forall u :: !Has(s, u, email) }

  /** Only the clock has moved. */
  predicate Nothing(s: State, t: State) { t == s.(clock := t.clock) }

  /** Users and assignments as they were. */
  predicate SameUsers(s: State, t: State) { t.users == s.users && t.assignments == s.assignments }

  /** Tokens and assignments as they were, and of the users only row u written. */
  predicate OnlyUser(s: State, t: State, u: string, row: User) {
    t.users == s.users[u := row] && t.tokens == s.tokens && t.assignments == s.assignments
  }

  /** One more token, which lasts for the configured time from now. */
  predicate OneMoreToken(s: State, t: State, raw: string, tenant: string, u: string, at: int) {
    t.tokens == s.tokens[raw := RefreshToken(tenant, u, at + s.ttl, None)]
  }

  /** Every live token of the user is revoked now, and no other token has changed. */
  ghost predicate AllRevoked(s: State, t: State, u: string, at: int) {
    t.tokens.Keys == s.tokens.Keys
    && forall raw :: raw in s.tokens ==>
         t.tokens[raw] == if s.tokens[raw].user == u && s.tokens[raw].revokedAt.None? then s.tokens[raw].(revokedAt := Some(at))
                          else s.tokens[raw]
  }

  lemma FoundByEmail(s: State, u: string)
    requires Inv(s) && u in s.users
    ensures ByEmail(s.users, s.users[u].email) == Some(u)
  {
    OneRow(s, u);
  }

  lemma NotFound(s: State, email: string)
    requires Nobody(s, email)
    ensures ByEmail(s.users, email) == None
  {
    forall u | u in s.users ensures s.users[u].email != email { assert !Has(s, u, email); }
  }

  // ---------- registration, login, refresh, logout ----------

  /** An agency is registered exactly when nobody has the e-mail; its owner logs in with that password. */
  lemma RegisterAnswers(s: State, e: Event)
    requires Inv(s) && e.Register?
    ensures var t := Step(s, e);
            if Nobody(s, e.email)
            then Answer(s, e) == Session(e.newUser, e.newTenant, Owner, e.raw)
                 && t.users == s.users[e.newUser := User(e.email, e.newTenant, Owner, true, Some(e.password), None, None, None)]
                 && OneMoreToken(s, t, e.raw, e.newTenant, e.newUser, e.at) && t.assignments == s.assignments
            else Answer(s, e) == Refused(Conflict) && Nothing(s, t)
  {
    hide Inv;
    if Nobody(s, e.email) {
      NotFound(s, e.email);
    } else {
      var u :| Has(s, u, e.email);
      FoundByEmail(s, u);
    }
  }

  /** The given password, or a match of the digest that stands in for a missing one. */
  predicate Knows(user: User, e: Event)
    requires e.Login?
  {
    if user.password.Some? then user.password.value == e.password else e.dummyMatches
  }

  /** Who has the e-mail and the password gets a session while active, and hears of being inactive only then. */
  lemma LoginAnswers(s: State, e: Event)
    requires Inv(s) && e.Login?
    ensures Nobody(s, e.email) ==> Answer(s, e) == Refused(BadCredentials)
    ensures forall u :: Has(s, u, e.email) ==>
              Answer(s, e) == if !Knows(s.users[u], e) then Refused(BadCredentials)
                              else if s.users[u].active then Session(u, s.users[u].tenant, s.users[u].role, e.raw)
                              else Refused(Inactive)
    ensures SameUsers(s, Step(s, e))
    ensures if Answer(s, e).Session? then OneMoreToken(s, Step(s, e), e.raw, Answer(s, e).tenant, Answer(s, e).user, e.at)
            else Nothing(s, Step(s, e))
  {
    hide Inv;
    if Nobody(s, e.email) { NotFound(s, e.email); }
    forall u | Has(s, u, e.email) ensures ByEmail(s.users, e.email) == Some(u) { FoundByEmail(s, u); }
    forall u | u in s.users ensures s.users[u].active ==> s.users[u].password.Some? { RowOk(s, u); }
  }

  /**
   A refresh opens a session exactly for a stored token that is neither revoked nor past its expiry: that
   one is revoked and a new one stored. A revoked one costs its user every session; otherwise nothing moves.
   */
  lemma RefreshAnswers(s: State, e: Event)
    requires Inv(s) && s.clock <= e.at && e.Refresh?
    ensures Answer(s, e).Session? <==>
              e.presented != "" && IsLive(s.tokens, e.presented) && e.at <= s.tokens[e.presented].expiresAt
    ensures Answer(s, e) == Refused(NoToken) <==> e.presented == ""
    ensures Answer(s, e) == Refused(InvalidToken) <==> e.presented != "" && e.presented !in s.tokens
    ensures Answer(s, e) == Refused(Reused) <==>
              e.presented != "" && e.presented in s.tokens && s.tokens[e.presented].revokedAt.Some?
    ensures Answer(s, e) == Refused(Expired) <==>
              e.presented != "" && IsLive(s.tokens, e.presented) && e.at > s.tokens[e.presented].expiresAt
    ensures SameUsers(s, Step(s, e))
    ensures Answer(s, e) == Refused(Reused) ==> AllRevoked(s, Step(s, e), s.tokens[e.presented].user, e.at)
    ensures Answer(s, e) in {Refused(NoToken), Refused(InvalidToken), Refused(Expired)} ==> Nothing(s, Step(s, e))
  {
    hide UserInv, TokenInv, LiveInv;
    if IsLive(s.tokens, e.presented) { LiveRow(s, e.presented); }
  }

  /** The session is the token's user's; the presented token is revoked and one more stored, the others stay. */
  lemma RefreshWrites(s: State, e: Event)
    requires Inv(s) && s.clock <= e.at && e.Refresh? && Answer(s, e).Session?
    ensures var t, was := Step(s, e), s.tokens[e.presented];
            Answer(s, e) == Session(was.user, was.tenant, s.users[was.user].role, e.raw)
            && t.tokens == s.tokens[e.presented := was.(revokedAt := Some(e.at))][e.raw := RefreshToken(was.tenant, was.user, e.at + s.ttl, None)]
  {
    hide UserInv, TokenInv, LiveInv;
    RefreshAnswers(s, e);
    LiveRow(s, e.presented);
  }

  /** Signing out revokes the presented token, if it is stored and live, and nothing else. */
  lemma SignOutWrites(s: State, e: Event)
    requires e.Logout?
    ensures Answer(s, e) == Done && SameUsers(s, Step(s, e))
    ensures Step(s, e).tokens ==
            if e.presented != "" && IsLive(s.tokens, e.presented)
            then s.tokens[e.presented := s.tokens[e.presented].(revokedAt := Some(e.at))] else s.tokens
  {
  }

  /** After signing out the token is dead, and no refresh with it opens a session in any run that follows. */
  lemma SignOutEnds(s: State, e: Event, es: seq<Event>, later: int, other: string)
    requires Inv(s) && Allowed(s, e) && e.Logout? && e.presented in s.history.issued && AllowedRun(Step(s, e), es)
    ensures e.presented != "" ==> !IsLive(Step(s, e).tokens, e.presented)
    ensures !Answer(Run(Step(s, e), es), Refresh(later, e.presented, other)).Session?
  {
    hide Inv, Run, AllowedRun;
    StepSound(s, e);
    SignOutWrites(s, e);
    var t := Step(s, e);
    if e.presented != "" { DeadStaysDead(t, es, e.presented); }
    if e.presented == "" || !IsLive(Run(t, es).tokens, e.presented) { OnlyLiveRefresh(Run(t, es), later, e.presented, other); }
  }

  lemma OnlyLiveRefresh(s: State, later: int, presented: string, other: string)
    requires presented == "" || !IsLive(s.tokens, presented)
    ensures !Answer(s, Refresh(later, presented, other)).Session?
  {
  }

  /** A token that was handed out and is not live never becomes live: no operation stores it again. */
  lemma {:induction false} DeadStaysDead(s: State, es: seq<Event>, raw: string)
    requires Inv(s) && AllowedRun(s, es) && raw in s.history.issued && !IsLive(s.tokens, raw)
    ensures !IsLive(Run(s, es).tokens, raw)
    decreases |es|
  {
    hide Inv, Step, Allowed;
    if es != [] {
      StepSound(s, es[0]);
      IssuedGrows(s.history, Step(s, es[0]).history, raw);
      DeadStep(s, es[0], raw);
      DeadStaysDead(Step(s, es[0]), es[1..], raw);
    }
  }

  lemma DeadStep(s: State, e: Event, raw: string)
    requires Allowed(s, e) && raw in s.history.issued && !IsLive(s.tokens, raw)
    ensures !IsLive(Step(s, e).tokens, raw)
  {
    hide ByEmail, ByInvite, ByReset;
  }

  // ---------- how long a token works ----------

  /** Stored with this expiry, or past it. */
  predicate Kept(s: State, raw: string, expires: int) {
    raw !in s.history.revoked ==> if raw in s.tokens then s.tokens[raw].expiresAt == expires else expires < s.clock
  }

  lemma ExpiryStays(raw: string)
    ensures forall s: State, at, raws :: var t := Revoke(s, at, raws).tokens;
              (raw in t <==> raw in s.tokens) && (raw in t ==> t[raw].expiresAt == s.tokens[raw].expiresAt)
    ensures forall s: State, at, tenant, u, other, first :: other != raw ==> var t := Store(s, at, tenant, u, other, first).tokens;
              (raw in t <==> raw in s.tokens) && (raw in t ==> t[raw] == s.tokens[raw])
    ensures forall s: State, at :: var t := CleanUp(s, at).tokens;
              (raw in t ==> raw in s.tokens && t[raw] == s.tokens[raw])
              && (raw in s.tokens && raw !in t ==> s.tokens[raw].revokedAt.Some? || s.tokens[raw].expiresAt < at)
  {
  }

  /** What a step can do to a token handed out before: nothing to its expiry, and no early deletion unless revoked. */
  lemma TokenStep(s: State, e: Event, raw: string)
    requires Allowed(s, e) && raw in s.history.issued
    ensures var t := Step(s, e).tokens;
            (raw in t ==> raw in s.tokens && t[raw].expiresAt == s.tokens[raw].expiresAt)
            && (raw in s.tokens && raw !in t ==> s.tokens[raw].revokedAt.Some? || s.tokens[raw].expiresAt < e.at)
  {
    hide Revoke, Store, CleanUp, ByEmail, ByInvite, ByReset;
    ExpiryStays(raw);
  }

  lemma KeptStep(s: State, e: Event, raw: string, expires: int)
    requires Inv(s) && Allowed(s, e) && raw in s.history.issued && Kept(s, raw, expires)
    ensures Kept(Step(s, e), raw, expires)
  {
    hide Inv, Step;
    StepSound(s, e);
    TokenStep(s, e, raw);
    if raw in s.tokens { StoredToken(s, raw); }
    RevokedGrows(s.history, Step(s, e).history, raw);
    assert s.clock <= e.at == Step(s, e).clock;
  }

  lemma RevokedGrows(h: History, h2: History, raw: string)
    requires Grows(h, h2)
    ensures raw in h.revoked ==> raw in h2.revoked
  {
  }

  lemma StoredToken(s: State, raw: string)
    requires Inv(s) && raw in s.tokens
    ensures s.tokens[raw].revokedAt.Some? <==> raw in s.history.revoked
  {
    assert TokenOk(raw, s.tokens[raw], s.history);
  }

  lemma {:induction false} KeptOverRun(s: State, es: seq<Event>, raw: string, expires: int)
    requires Inv(s) && AllowedRun(s, es) && raw in s.history.issued && Kept(s, raw, expires)
    ensures Kept(Run(s, es), raw, expires)
    decreases |es|
  {
    hide Inv, Step, Allowed, Kept;
    if es != [] {
      StepSound(s, es[0]);
      IssuedGrows(s.history, Step(s, es[0]).history, raw);
      KeptStep(s, es[0], raw, expires);
      KeptOverRun(Step(s, es[0]), es[1..], raw, expires);
    }
  }

  /**
   How long a session lasts: the token handed out at registration, login, refresh or acceptance opens
   another one, after any run that follows, exactly until the configured time is over or it is revoked.
   Deleting expired tokens makes no difference.
   */
  lemma TokenWorksExactly(s: State, e: Event, es: seq<Event>, later: int, other: string)
    requires Inv(s) && Allowed(s, e) && Answer(s, e).Session? && e.raw != "" && AllowedRun(Step(s, e), es)
    requires Run(Step(s, e), es).clock <= later
    ensures Answer(s, e).refresh == e.raw
    ensures var z := Run(Step(s, e), es);
            Answer(z, Refresh(later, e.raw, other)).Session? <==> e.raw !in z.history.revoked && later <= e.at + s.ttl
  {
    hide Inv, Run, AllowedRun, Kept;
    var t := Step(s, e);
    StepSound(s, e);
    HandedOut(s, e);
    KeptOverRun(t, es, e.raw, e.at + s.ttl);
    RunSound(t, es);
    WorksWhileKept(Run(t, es), later, e.raw, other, e.at + s.ttl);
  }

  lemma HandedOut(s: State, e: Event)
    requires Inv(s) && Allowed(s, e) && Answer(s, e).Session?
    ensures Answer(s, e).refresh == e.raw && e.raw in Step(s, e).history.issued && Kept(Step(s, e), e.raw, e.at + s.ttl)
  {
    hide UserInv, TokenInv, LiveInv, ByEmail, ByInvite, ByReset;
  }

  lemma WorksWhileKept(s: State, later: int, raw: string, other: string, expires: int)
    requires Inv(s) && s.clock <= later && raw != "" && Kept(s, raw, expires)
    ensures Answer(s, Refresh(later, raw, other)).Session? <==> raw !in s.history.revoked && later <= expires
  {
    hide UserInv, LiveInv, TokenInv, Answer;
    RefreshAnswers(s, Refresh(later, raw, other));
    if raw in s.tokens { StoredToken(s, raw); }
  }

  /** The daily deletion takes exactly unrevoked tokens past their expiry and tokens revoked more than 30 days ago. */
  lemma CleanUpWrites(s: State, e: Event)
    requires e.DeleteExpired?
    ensures Answer(s, e) == Done && SameUsers(s, Step(s, e))
    ensures forall raw :: raw in Step(s, e).tokens <==>
              raw in s.tokens && match s.tokens[raw].revokedAt
                case None => e.at <= s.tokens[raw].expiresAt
                case Some(when) => e.at - when <= 30 * 24 * 60 * 60 * 1000
    ensures forall raw :: raw in Step(s, e).tokens ==> Step(s, e).tokens[raw] == s.tokens[raw]
  {
  }

  // ---------- password reset ----------

  /** A link is sent, and stored for an hour, exactly to an active user with the e-mail; the answer does not tell. */
  lemma ForgotAnswers(s: State, e: Event)
    requires Inv(s) && e.Forgot?
    ensures Answer(s, e) == Done
    ensures forall u :: Has(s, u, e.email) && s.users[u].active ==>
              OnlyUser(s, Step(s, e), u, s.users[u].(reset := Some(Ticket(e.raw, e.at + 60 * 60 * 1000))))
    ensures (forall u :: Has(s, u, e.email) ==> !s.users[u].active) ==> Nothing(s, Step(s, e))
  {
    hide Inv;
    if Nobody(s, e.email) { NotFound(s, e.email); }
    forall u | Has(s, u, e.email) ensures ByEmail(s.users, e.email) == Some(u) { FoundByEmail(s, u); }
  }

  /** A link resets the password of the active user who has it, within its time, and ends every session of theirs. */
  lemma ResetAnswers(s: State, e: Event)
    requires Inv(s) && s.clock <= e.at && e.Reset?
    ensures (forall u :: u in s.users ==> !HasReset(s.users[u], e.link)) ==> Answer(s, e) == Refused(InvalidToken)
    ensures forall u :: u in s.users && HasReset(s.users[u], e.link) ==>
              Answer(s, e) == if !s.users[u].active then Refused(Inactive)
                              else if e.at <= s.users[u].reset.value.expiresAt then Done else Refused(Expired)
    ensures forall u :: u in s.users && HasReset(s.users[u], e.link) && Answer(s, e) == Done ==>
              Step(s, e).users == s.users[u := s.users[u].(password := Some(e.password), reset := None)]
              && Step(s, e).assignments == s.assignments && AllRevoked(s, Step(s, e), u, e.at)
    ensures Answer(s, e) != Done ==> Nothing(s, Step(s, e))
  {
    hide Inv, HasReset;
    forall u | u in s.users && HasReset(s.users[u], e.link) ensures ByReset(s.users, e.link) == Some(u) { OneReset(s, u, e.link); }
    if forall u :: u in s.users ==> !HasReset(s.users[u], e.link) { assert ByReset(s.users, e.link) == None; }
  }

  // ---------- invitations ----------

  /** The invitation mailed now, good for 48 hours. */
  function Invitation(e: Event): Option<Ticket>
    requires e.InviteStaff? || e.InviteClient? || e.ResendInvite? || e.ResendClientInvite?
  {
    Some(Ticket(e.raw, e.at + 48 * 60 * 60 * 1000))
  }

  /** Who is in the way of a staff invitation. */
  ghost predicate Member(s: State, email: string) { exists u :: Has(s, u, email) && s.users[u].active }

  ghost predicate Invited(s: State, email: string) { exists u :: Has(s, u, email) && !s.users[u].active && s.users[u].invite.Some? }

  /** A new row, or the row of an inactive user without an invitation made a staff member's of this tenant. */
  lemma InviteStaffAnswers(s: State, e: Event)
    requires Inv(s) && e.InviteStaff?
    ensures Answer(s, e) == if !e.withinLimits then Refused(LimitReached)
                            else if Member(s, e.email) then Refused(Conflict)
                            else if Invited(s, e.email) then Refused(AlreadyInvited)
                            else if !e.stillWithin then Refused(LimitReached) else Done
    ensures Answer(s, e) != Done ==> Nothing(s, Step(s, e))
    ensures Answer(s, e) == Done && Nobody(s, e.email) ==>
              OnlyUser(s, Step(s, e), e.newUser, User(e.email, e.tenant, Staff, false, None, Invitation(e), None, None))
    ensures Answer(s, e) == Done ==> forall u :: Has(s, u, e.email) ==>
              OnlyUser(s, Step(s, e), u, s.users[u].(tenant := e.tenant, role := Staff, invite := Invitation(e), password := None))
  {
    hide Inv;
    if Nobody(s, e.email) { NotFound(s, e.email); }
    forall u | Has(s, u, e.email) ensures ByEmail(s.users, e.email) == Some(u) { FoundByEmail(s, u); }
  }

  /** A client user is invited exactly for a client there is and an e-mail nobody has. */
  lemma InviteClientAnswers(s: State, e: Event)
    requires Inv(s) && e.InviteClient?
    ensures Answer(s, e) == if !e.clientFound then Refused(Error.NotFound)
                            else if Member(s, e.email) then Refused(Conflict)
                            else if Nobody(s, e.email) then Done else Refused(AlreadyInvited)
    ensures if Answer(s, e) == Done
            then OnlyUser(s, Step(s, e), e.newUser,
                          User(e.email, e.tenant, ClientUser, false, None, Invitation(e), None, Some(e.client)))
            else Nothing(s, Step(s, e))
  {
    hide Inv;
    if Nobody(s, e.email) { NotFound(s, e.email); }
    forall u | Has(s, u, e.email) ensures ByEmail(s.users, e.email) == Some(u) { FoundByEmail(s, u); }
  }

  /** An invitation is renewed exactly for an inactive user of the tenant, by the client form only for a client user. */
  predicate Renewable(user: User, e: Event)
    requires e.ResendInvite? || e.ResendClientInvite?
  {
    user.tenant == e.tenant && !user.active && (e.ResendClientInvite? ==> user.role == ClientUser)
  }

  lemma ResendAnswers(s: State, e: Event)
    requires Inv(s) && (e.ResendInvite? || e.ResendClientInvite?)
    ensures Answer(s, e) == if exists u :: Has(s, u, e.email) && Renewable(s.users[u], e) then Done else Refused(Error.NotFound)
    ensures forall u :: Has(s, u, e.email) && Renewable(s.users[u], e) ==>
              OnlyUser(s, Step(s, e), u, s.users[u].(invite := Invitation(e)))
    ensures Answer(s, e) != Done ==> Nothing(s, Step(s, e))
  {
    hide Inv;
    if Nobody(s, e.email) { NotFound(s, e.email); }
    forall u | Has(s, u, e.email) ensures ByEmail(s.users, e.email) == Some(u) { FoundByEmail(s, u); }
  }

  /** Who a valid acceptance turns the row into, and to whom it opens a session. */
  lemma AcceptAnswers(s: State, e: Event)
    requires Inv(s) && e.Accept?
    ensures (forall u :: u in s.users ==> !HasInvite(s.users[u], e.link)) ==> Answer(s, e) == Refused(InvalidToken)
    ensures forall u :: u in s.users && HasInvite(s.users[u], e.link) ==>
              Answer(s, e) == if s.users[u].invite.value.expiresAt < e.at then Refused(Expired)
                              else if s.users[u].pendingClient.Some? && !e.clientActive then Refused(ClientGone)
                              else Session(u, s.users[u].tenant, s.users[u].role, e.raw)
    ensures forall u :: u in s.users && HasInvite(s.users[u], e.link) && Answer(s, e).Session? ==>
              Step(s, e).users == s.users[u := s.users[u].(password := Some(e.password), active := true, invite := None, pendingClient := None)]
              && Step(s, e).assignments ==
                 s.assignments + (if s.users[u].pendingClient.Some? then {(u, s.users[u].pendingClient.value)} else {})
              && OneMoreToken(s, Step(s, e), e.raw, s.users[u].tenant, u, e.at)
    ensures !Answer(s, e).Session? ==> Nothing(s, Step(s, e))
  {
    hide Inv, HasInvite;
    forall u | u in s.users && HasInvite(s.users[u], e.link) ensures ByInvite(s.users, e.link) == Some(u) { OneInvite(s, u, e.link); }
    if forall u :: u in s.users ==> !HasInvite(s.users[u], e.link) { assert ByInvite(s.users, e.link) == None; }
  }

  /** A member other than the requester and the owner is removed from their own agency, with every session. */
  lemma RemoveAnswers(s: State, e: Event)
    requires Inv(s) && s.clock <= e.at && e.Remove?
    ensures Answer(s, e) == if !(e.target in s.users && s.users[e.target].tenant == e.tenant) then Refused(Error.NotFound)
                            else if e.target == e.requester then Refused(Yourself)
                            else if s.users[e.target].role == Owner then Refused(OwnerStays) else Done
    ensures Answer(s, e) == Done ==>
              Step(s, e).users == s.users[e.target := s.users[e.target].(active := false, invite := None)]
              && Step(s, e).assignments == s.assignments && AllRevoked(s, Step(s, e), e.target, e.at)
    ensures Answer(s, e) != Done ==> Nothing(s, Step(s, e))
  {
    hide Inv;
  }

  /**
   What an invitation is good for: accepted at once or later, it makes its user an active member of that
   tenant in that role, exactly within 48 hours and unless the client it is for is gone.
   */
  lemma InvitationLasts(s: State, e: Event, later: int, password: string, clientActive: bool, raw: string)
    requires Inv(s) && Allowed(s, e) && (e.InviteStaff? || e.InviteClient? || e.ResendInvite? || e.ResendClientInvite?)
    requires Answer(s, e) == Done
    ensures var t := Step(s, e); var join := Accept(later, e.raw, password, clientActive, raw);
            exists u :: Has(t, u, e.email) && t.users[u].tenant == e.tenant
              && (e.InviteStaff? ==> t.users[u].role == Staff)
              && (e.InviteClient? ==> t.users[u].role == ClientUser && t.users[u].pendingClient == Some(e.client))
              && (Answer(t, join) == Session(u, e.tenant, t.users[u].role, raw) <==>
                  later <= e.at + 48 * 60 * 60 * 1000 && (t.users[u].pendingClient.Some? ==> clientActive))
  {
    hide Inv, Step, Answer;
    var t := Step(s, e);
    StepSound(s, e);
    var u := InvitedRow(s, e);
    AcceptAnswers(t, Accept(later, e.raw, password, clientActive, raw));
  }

  lemma InvitedRow(s: State, e: Event) returns (u: string)
    requires Inv(s) && Allowed(s, e) && (e.InviteStaff? || e.InviteClient? || e.ResendInvite? || e.ResendClientInvite?)
    requires Answer(s, e) == Done
    ensures var t := Step(s, e);
            Has(t, u, e.email) && t.users[u].tenant == e.tenant && !t.users[u].active && t.users[u].invite == Invitation(e)
            && (e.InviteStaff? ==> t.users[u].role == Staff)
            && (e.InviteClient? ==> t.users[u].role == ClientUser && t.users[u].pendingClient == Some(e.client))
  {
    hide Inv, Step, Answer;
    if e.InviteStaff? {
      InviteStaffAnswers(s, e);
      if Nobody(s, e.email) { u := e.newUser; } else { u :| Has(s, u, e.email); }
    } else if e.InviteClient? {
      InviteClientAnswers(s, e);
      u := e.newUser;
    } else {
      ResendAnswers(s, e);
      u :| Has(s, u, e.email) && Renewable(s.users[u], e);
    }
  }
}
