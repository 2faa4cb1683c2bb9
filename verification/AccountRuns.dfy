/**
 What whole runs of the account operations guarantee: sessions, revocation, invitations and owners.
 */
module AccountRuns {
  import opened Options
  import opened Accounts

  lemma EmptySound(ttl: int, clock: int)
    ensures Inv(Empty(ttl, clock))
  {
  }

  lemma GrowsOn(a: History, b: History, c: History)
    requires Grows(a, b) && Grows(b, c)
    ensures Grows(a, c)
  {
  }

  lemma {:induction false} RunSound(s: State, es: seq<Event>)
    requires Inv(s) && AllowedRun(s, es)
    ensures Inv(Run(s, es)) && Grows(s.history, Run(s, es).history) && s.clock <= Run(s, es).clock
    decreases |es|
  {
    hide Inv, Grows, Step;
    if es == [] {
      GrowsSelf(s.history);
    } else {
      StepSound(s, es[0]);
      RunSound(Step(s, es[0]), es[1..]);
      GrowsOn(s.history, Step(s, es[0]).history, Run(s, es).history);
    }
  }

  lemma GrowsSelf(h: History)
    ensures Grows(h, h)
  {
  }

  /**
   The joint invariant over every serial run from an empty database: each login's chain of rotated
   tokens has at most one live token; a live token belongs to an active user of its tenant; an active
   user has no invitation and an owner is active.
   */
  lemma EveryRun(ttl: int, clock: int, es: seq<Event>)
    requires AllowedRun(Empty(ttl, clock), es)
    ensures var s := Run(Empty(ttl, clock), es);
      (forall raw :: IsLive(s.tokens, raw) ==> raw in s.history.chain && Backed(s.tokens[raw], s.users)) &&
      OneLive(s.tokens, s.history) &&
      (forall u :: u in s.users && s.users[u].active ==> s.users[u].invite.None? && s.users[u].password.Some?) &&
      (forall u :: u in s.users && s.users[u].role == Owner ==> s.users[u].active)
  {
    hide UserInv, TokenInv, LiveInv, Run;
    EmptySound(ttl, clock);
    RunSound(Empty(ttl, clock), es);
    var s := Run(Empty(ttl, clock), es);
    OneLivePerChain(s);
    forall raw | IsLive(s.tokens, raw) ensures raw in s.history.chain && Backed(s.tokens[raw], s.users) { LiveRow(s, raw); }
    forall u | u in s.users ensures UserOk(u, s.users[u], s.history) { RowOk(s, u); }
  }

  lemma OneLivePerChain(s: State)
    requires Inv(s)
    ensures OneLive(s.tokens, s.history)
  {
  }

  // ---------- revocation ----------

  /** Once revoked, a token keeps its time of revocation as long as it is stored, and is never live again. */
  lemma RevocationIsPermanent(s: State, es: seq<Event>, raw: string)
    requires Inv(s) && AllowedRun(s, es) && raw in s.tokens && s.tokens[raw].revokedAt.Some?
    ensures var t := Run(s, es).tokens; !IsLive(t, raw) && (raw in t ==> t[raw].revokedAt == s.tokens[raw].revokedAt)
  {
    RunSound(s, es);
    assert TokenOk(raw, s.tokens[raw], s.history);
    var t := Run(s, es);
    if raw in t.tokens { assert TokenOk(raw, t.tokens[raw], t.history); }
  }

  /** A revoked token never opens a session, however often it is presented and whatever was cleaned up. */
  lemma RevokedNeverRefreshes(s: State, at: int, presented: string, raw: string)
    requires Inv(s) && presented in s.history.revoked
    ensures Answer(s, Refresh(at, presented, raw)) in {Refused(NoToken), Refused(InvalidToken), Refused(Reused)}
  {
    if presented in s.tokens { assert TokenOk(presented, s.tokens[presented], s.history); }
  }

  /** Presenting a token revoked in the last thirty days is noticed and ends every session of its user. */
  lemma ReuseRevokesAll(s: State, at: int, presented: string, raw: string)
    requires Inv(s) && s.clock <= at && presented != ""
    requires presented in s.history.revoked && at - RETENTION <= s.history.revoked[presented]
    ensures presented in s.history.holder
    ensures var e := Refresh(at, presented, raw);
            Answer(s, e) == Refused(Reused) && NoLive(Step(s, e).tokens, s.history.holder[presented])
  {
    hide UserInv, TokenInv, LiveInv, RevokeAll;
    RememberedRow(s, presented);
    ClockKeeps(s, at);
    RevokeAllKeeps(s.(clock := at), at, s.tokens[presented].user);
  }

  lemma RememberedRow(s: State, raw: string)
    requires Inv(s) && raw in s.history.revoked && s.clock - RETENTION <= s.history.revoked[raw]
    ensures raw in s.tokens && TokenOk(raw, s.tokens[raw], s.history)
  {
    assert Remembered(raw, s.tokens, s.history, s.clock);
  }

  /** A token cannot be used twice: after a successful refresh it is revoked for good. */
  lemma RefreshRotates(s: State, at: int, presented: string, raw: string, es: seq<Event>, later: int, other: string)
    requires Inv(s) && Allowed(s, Refresh(at, presented, raw)) && Answer(s, Refresh(at, presented, raw)).Session?
    requires AllowedRun(Step(s, Refresh(at, presented, raw)), es)
    ensures IsLive(Step(s, Refresh(at, presented, raw)).tokens, raw)
    ensures !Answer(Run(Step(s, Refresh(at, presented, raw)), es), Refresh(later, presented, other)).Session?
  {
    hide UserInv, TokenInv, LiveInv, Run, Revoke, Store;
    var e := Refresh(at, presented, raw);
    StepSound(s, e);
    RotatedIsRevoked(s, at, presented, raw);
    RunSound(Step(s, e), es);
    RevokedNeverRefreshes(Run(Step(s, e), es), later, presented, other);
  }

  lemma RotatedIsRevoked(s: State, at: int, presented: string, raw: string)
    requires Inv(s) && s.clock <= at && Answer(s, Refresh(at, presented, raw)).Session?
    ensures presented in Step(s, Refresh(at, presented, raw)).history.revoked
    ensures Answer(s, Refresh(at, presented, raw)).refresh == raw
  {
    hide UserInv, TokenInv, LiveInv;
    ClockKeeps(s, at);
    RevokeKeeps(s.(clock := at), at, {presented});
  }

  // ---------- links ----------

  /** Whether the event uses up the mailed link: an invitation accepted or a password reset. */
  ghost predicate Uses(s: State, e: Event, link: string) {
    (e.Accept? && e.link == link && Answer(s, e).Session?) || (e.Reset? && e.link == link && Answer(s, e) == Done)
  }

  ghost function UseCount(s: State, es: seq<Event>, link: string): nat
    decreases |es|
  {
    if es == [] then 0 else (if Uses(s, es[0], link) then 1 else 0) + UseCount(Step(s, es[0]), es[1..], link)
  }

  lemma UseSpends(s: State, e: Event, link: string)
    requires Inv(s) && Allowed(s, e) && Uses(s, e, link)
    ensures link !in s.history.spent && link in Step(s, e).history.spent
  {
    hide UserInv, TokenInv, LiveInv, Store, Revoke;
    if e.Accept? {
      RowOk(s, ByInvite(s.users, link).value);
      StoreHistory(s, e.at, "", "", e.raw, e.raw);
    } else {
      RowOk(s, ByReset(s.users, link).value);
    }
    SpentByStep(s, e, link);
  }

  lemma StoreHistory(s: State, at: int, tenant: string, u: string, raw: string, first: string)
    ensures Store(s, at, tenant, u, raw, first).history.spent == s.history.spent
  {
  }

  lemma SpentByStep(s: State, e: Event, link: string)
    requires Uses(s, e, link)
    ensures link in Step(s, e).history.spent
  {
  }

  /** Every invitation is accepted, and every reset link used, at most once in a run. */
  lemma {:induction false} LinksWorkOnce(s: State, es: seq<Event>, link: string)
    requires Inv(s) && AllowedRun(s, es)
    ensures UseCount(s, es, link) <= 1
    ensures link in s.history.spent ==> UseCount(s, es, link) == 0
    decreases |es|
  {
    hide Inv, Step, Uses, Allowed;
    if es != [] {
      StepSound(s, es[0]);
      SpentGrows(s.history, Step(s, es[0]).history, link);
      LinksWorkOnce(Step(s, es[0]), es[1..], link);
      if Uses(s, es[0], link) { UseSpends(s, es[0], link); }
    }
  }

  lemma SpentGrows(h: History, h2: History, link: string)
    requires Grows(h, h2)
    ensures link in h.spent ==> link in h2.spent
  {
  }

  // ---------- owners, removed members, credentials ----------

  /** A registered owner stays the active owner of the same agency, whatever follows. */
  lemma OwnerStaysOwner(s: State, e: Event, es: seq<Event>)
    requires Inv(s) && Allowed(s, e) && e.Register? && Answer(s, e).Session? && AllowedRun(Step(s, e), es)
    ensures var users := Run(Step(s, e), es).users;
            e.newUser in users && users[e.newUser].active && users[e.newUser].role == Owner
            && users[e.newUser].tenant == e.newTenant
  {
    hide TokenInv, LiveInv, Run;
    StepSound(s, e);
    RunSound(Step(s, e), es);
    var t := Run(Step(s, e), es);
    assert e.newUser in t.history.owners && t.history.owners[e.newUser] == e.newTenant;
    RowOk(t, e.newUser);
  }

  /** So the branch of an invitation that takes over an existing row never takes over an owner's. */
  lemma ReusedRowIsNoOwner(s: State, u: string)
    requires Inv(s) && u in s.users && !s.users[u].active
    ensures s.users[u].role != Owner && NoLive(s.tokens, u)
  {
    RowOk(s, u);
    NoneLive(s.users, s.tokens, u);
  }

  lemma RemoveEndsSessions(s: State, e: Event)
    requires Inv(s) && Allowed(s, e) && e.Remove? && Answer(s, e) == Done
    ensures var t := Step(s, e); e.target in t.users && !t.users[e.target].active && NoLive(t.tokens, e.target)
    ensures Step(s, e).users[e.target].invite.None?
  {
    hide UserInv, TokenInv, LiveInv;
    StepSound(s, e);
    NoneLive(Step(s, e).users, Step(s, e).tokens, e.target);
  }

  /** Only accepting an invitation activates a user, and only an active user gets a session. */
  lemma StaysOut(s: State, e: Event, u: string)
    requires Inv(s) && Allowed(s, e) && u in s.users && !s.users[u].active
    requires !(e.Accept? && Answer(s, e).Session? && Answer(s, e).user == u)
    ensures var t := Step(s, e); u in t.users && !t.users[u].active && NoLive(t.tokens, u)
    ensures Answer(s, e).Session? ==> Answer(s, e).user != u
  {
    hide UserInv, TokenInv, LiveInv, Revoke, Store, CleanUp;
    RevokeUsers();
    var t := Step(s, e);
    StepSound(s, e);
    assert u in t.users && !t.users[u].active;
    NoneLive(t.users, t.tokens, u);
  }

  lemma RevokeUsers()
    ensures forall s: State, at, raws :: Revoke(s, at, raws).users == s.users
    ensures forall s: State, at, tenant, u, raw, first :: Store(s, at, tenant, u, raw, first).users == s.users
    ensures forall s: State, at :: CleanUp(s, at).users == s.users
  {
  }

  ghost predicate AcceptedBy(s: State, es: seq<Event>, u: string)
    decreases |es|
  {
    es != [] && ((es[0].Accept? && Answer(s, es[0]).Session? && Answer(s, es[0]).user == u)
                 || AcceptedBy(Step(s, es[0]), es[1..], u))
  }

  ghost predicate SessionFor(s: State, es: seq<Event>, u: string)
    decreases |es|
  {
    es != [] && ((Answer(s, es[0]).Session? && Answer(s, es[0]).user == u) || SessionFor(Step(s, es[0]), es[1..], u))
  }

  /** A removed member gets no session, by any operation, until they accept a new invitation. */
  lemma {:induction false} RemovedStaysOut(s: State, es: seq<Event>, u: string)
    requires Inv(s) && AllowedRun(s, es) && u in s.users && !s.users[u].active && !AcceptedBy(s, es, u)
    ensures !SessionFor(s, es, u) && u in Run(s, es).users && !Run(s, es).users[u].active
    ensures NoLive(Run(s, es).tokens, u)
    decreases |es|
  {
    hide Inv, Step, Answer, Allowed, NoLive;
    if es == [] {
      NoLiveNow(s, u);
    } else {
      StepSound(s, es[0]);
      StaysOut(s, es[0], u);
      RemovedStaysOut(Step(s, es[0]), es[1..], u);
    }
  }

  lemma NoLiveNow(s: State, u: string)
    requires Inv(s) && u in s.users && !s.users[u].active
    ensures NoLive(s.tokens, u)
  {
    NoneLive(s.users, s.tokens, u);
  }

  /** A login succeeds exactly with the e-mail and password of an active user. */
  lemma LoginOpens(s: State, at: int, email: string, password: string, dummyMatches: bool, raw: string)
    requires Inv(s)
    ensures Answer(s, Login(at, email, password, dummyMatches, raw)).Session? <==>
            exists u :: u in s.users && s.users[u].email == email && s.users[u].active && s.users[u].password == Some(password)
  {
    var r := ByEmail(s.users, email);
    if u :| u in s.users && s.users[u].email == email {
      assert u != r.value ==> Distinct(s.users[u], s.users[r.value]);
      assert UserOk(u, s.users[u], s.history);
    }
  }

  /** A reset ends every session, and from then on only the new password opens one. */
  lemma ResetTakesEffect(s: State, at: int, link: string, password: string, dummyMatches: bool, guess: string, raw: string)
    requires Inv(s) && s.clock <= at && Answer(s, Reset(at, link, password)) == Done
    ensures var u := ByReset(s.users, link).value; var t := Step(s, Reset(at, link, password));
            NoLive(t.tokens, u) && u in t.users && t.users[u].email == s.users[u].email &&
            (Answer(t, Login(at, s.users[u].email, guess, dummyMatches, raw)).Session? <==> guess == password)
  {
    hide UserInv, TokenInv, LiveInv, Revoke;
    var e, u := Reset(at, link, password), ByReset(s.users, link).value;
    var t := Step(s, e);
    StepSound(s, e);
    RevokeUsers();
    assert t.users == s.users[u := s.users[u].(password := Some(password), reset := None)];
    ResetRevokes(s, at, link, password);
    LoginOpens(t, at, s.users[u].email, guess, dummyMatches, raw);
    OneRow(t, u);
  }

  lemma OneRow(s: State, u: string)
    requires Inv(s) && u in s.users
    ensures forall v :: v in s.users && s.users[v].email == s.users[u].email ==> v == u
  {
    forall v | v in s.users && v != u ensures s.users[v].email != s.users[u].email {
      assert Distinct(s.users[v], s.users[u]);
    }
  }

  lemma ResetRevokes(s: State, at: int, link: string, password: string)
    requires Inv(s) && s.clock <= at && Answer(s, Reset(at, link, password)) == Done
    ensures NoLive(Step(s, Reset(at, link, password)).tokens, ByReset(s.users, link).value)
  {
    hide UserInv, TokenInv, LiveInv, RevokeAll, UserOk, Tickets;
    var u := ByReset(s.users, link).value;
    ClockKeeps(s, at);
    var s0 := s.(clock := at);
    var user := s.users[u].(password := Some(password), reset := None);
    var s1 := Spend(Put(s0, u, user), link);
    HistoryGrows(s.tokens, s.history, s1.history, at);
    RevokeAllKeeps(s1, at, u);
  }

  ghost function InvitedUser(s: State, email: string, newUser: string): string {
    var row := ByEmail(s.users, email); if row.Some? then row.value else newUser
  }

  /** The client left on the row that a staff invitation takes over. */
  ghost function LeftClient(s: State, email: string): Option<string> {
    var row := ByEmail(s.users, email); if row.Some? then s.users[row.value].pendingClient else None
  }

  /**
   Removing a pending client user keeps the client on the row. A staff invitation that reuses the row asks
   for that client on acceptance: it is refused exactly when there is one and it is gone, and it assigns
   the new staff member to a client exactly when there is one that is not.
   */
  lemma StaleClientRides(s: State, at: int, tenant: string, email: string, newUser: string, link: string, later: int,
                         password: string, clientActive: bool, raw: string)
    requires Inv(s) && Allowed(s, InviteStaff(at, tenant, email, true, true, newUser, link))
    requires Answer(s, InviteStaff(at, tenant, email, true, true, newUser, link)) == Done
    requires later <= at + INVITE_TTL
    ensures var u := InvitedUser(s, email, newUser); var left := LeftClient(s, email);
            var t := Step(s, InviteStaff(at, tenant, email, true, true, newUser, link));
            var e := Accept(later, link, password, clientActive, raw);
            u in t.users && t.users[u].role == Staff
            && (Answer(t, e) == Refused(ClientGone) <==> left.Some? && !clientActive)
            && (Answer(t, e) == Session(u, tenant, Staff, raw) <==> !(left.Some? && !clientActive))
            && Step(t, e).assignments == s.assignments + (if left.Some? && clientActive then {(u, left.value)} else {})
  {
    hide Inv, Step, Answer;
    var e := InviteStaff(at, tenant, email, true, true, newUser, link);
    var u, t := InvitedUser(s, email, newUser), Step(s, e);
    StepSound(s, e);
    InvitedRow(s, at, tenant, email, newUser, link);
    OneInvite(t, u, link);
    AcceptAnswer(t, later, link, password, clientActive, raw, u);
  }

  lemma InvitedRow(s: State, at: int, tenant: string, email: string, newUser: string, link: string)
    requires Answer(s, InviteStaff(at, tenant, email, true, true, newUser, link)) == Done
    ensures var u := InvitedUser(s, email, newUser); var t := Step(s, InviteStaff(at, tenant, email, true, true, newUser, link));
            u in t.users && HasInvite(t.users[u], link) && t.users[u].invite.value.expiresAt == at + INVITE_TTL
            && t.users[u].role == Staff && t.users[u].tenant == tenant && t.users[u].pendingClient == LeftClient(s, email)
            && t.assignments == s.assignments
  {
  }

  lemma AcceptAnswer(s: State, at: int, link: string, password: string, clientActive: bool, raw: string, u: string)
    requires ByInvite(s.users, link) == Some(u) && at <= s.users[u].invite.value.expiresAt
    ensures var e := Accept(at, link, password, clientActive, raw); var user := s.users[u]; var left := user.pendingClient;
            Answer(s, e) == (if left.Some? && !clientActive then Refused(ClientGone) else Session(u, user.tenant, user.role, raw))
            && Step(s, e).assignments == s.assignments + (if left.Some? && clientActive then {(u, left.value)} else {})
  {
    hide Store;
    StoreIssues();
  }

  lemma OneInvite(s: State, u: string, link: string)
    requires Inv(s) && u in s.users && HasInvite(s.users[u], link)
    ensures ByInvite(s.users, link) == Some(u)
  {
    var v := ByInvite(s.users, link).value;
    assert v != u ==> Distinct(s.users[u], s.users[v]);
    assert link in Tickets(s.users[u]) && link in Tickets(s.users[v]);
  }

  lemma OneReset(s: State, u: string, link: string)
    requires Inv(s) && u in s.users && HasReset(s.users[u], link)
    ensures ByReset(s.users, link) == Some(u)
  {
    var v := ByReset(s.users, link).value;
    assert v != u ==> Distinct(s.users[u], s.users[v]);
    assert link in Tickets(s.users[u]) && link in Tickets(s.users[v]);
  }

  // ---------- runs that get there ----------

  lemma OnlyOne(users: map<string, User>, u: string, email: string)
    requires u in users && users[u].email == email && forall v :: v in users && v != u ==> users[v].email != email
    ensures ByEmail(users, email) == Some(u)
  {
  }

  /** A client user is invited and removed again. */
  function RemovedClientEvents(): seq<Event> {
    [Register(0, "o", "t", "o@x", "pw", "r0"), InviteClient(0, "t", "c", true, "a@x", "u", "i1"), Remove(0, "t", "o", "u")]
  }

  lemma RemovedClientHappens()
    ensures AllowedRun(Empty(1, 0), RemovedClientEvents())
    ensures var s := Run(Empty(1, 0), RemovedClientEvents());
            Inv(s) && s.clock == 0 && s.history.issued == {"r0", "i1"} && ByEmail(s.users, "a@x") == Some("u")
            && s.users.Keys == {"o", "u"} && s.users["u"].pendingClient == Some("c")
            && !s.users["u"].active && s.users["u"].invite == None
  {
    hide Run, AllowedRun, Inv, Step, Grows, Speaks, Answer;
    var es := RemovedClientEvents();
    var s0 := Empty(1, 0);
    EmptySound(1, 0);
    RegisteredRow(s0, 0, "o", "t", "o@x", "pw", "r0");
    StepSound(s0, es[0]);
    var s1 := Step(s0, es[0]);
    InvitedClientRow(s1, 0, "t", "c", "a@x", "u", "i1");
    StepSound(s1, es[1]);
    var s2 := Step(s1, es[1]);
    RemovedRow(s2, 0, "t", "o", "u");
    StepSound(s2, es[2]);
    var s3 := Step(s2, es[2]);
    OnlyOne(s3.users, "u", "a@x");
    ThreeSteps(s0, es);
  }

  /** Invited as staff afterwards, that person is refused for the old client or assigned to it. */
  lemma StaleClientHappens(clientActive: bool)
    ensures var s := Run(Empty(1, 0), RemovedClientEvents());
            var e := InviteStaff(0, "t", "a@x", true, true, "w", "i2");
            var join := Accept(0, "i2", "secret", clientActive, "r1");
            Allowed(s, e) && Allowed(Step(s, e), join) && Answer(s, e) == Done
            && (if clientActive then ("u", "c") in Step(Step(s, e), join).assignments
                else Answer(Step(s, e), join) == Refused(ClientGone))
  {
    hide Run, AllowedRun, Inv, Step, Answer;
    RemovedClientHappens();
    var s := Run(Empty(1, 0), RemovedClientEvents());
    ReinvitedRow(s, 0, "t", "a@x", "w", "i2", "u");
    StaleClientRides(s, 0, "t", "a@x", "w", "i2", 0, "secret", clientActive, "r1");
  }

  lemma RegisteredRow(s: State, at: int, u: string, tenant: string, email: string, password: string, raw: string)
    requires ByEmail(s.users, email).None?
    ensures var t := Step(s, Register(at, u, tenant, email, password, raw));
            t.users == s.users[u := User(email, tenant, Owner, true, Some(password), None, None, None)]
            && t.history.issued == s.history.issued + {raw} && t.clock == at
  {
    hide Store;
    RevokeUsers();
    StoreIssues();
  }

  lemma InvitedClientRow(s: State, at: int, tenant: string, client: string, email: string, u: string, raw: string)
    requires ByEmail(s.users, email).None?
    ensures var t := Step(s, InviteClient(at, tenant, client, true, email, u, raw));
            t.users == s.users[u := User(email, tenant, ClientUser, false, None, Some(Ticket(raw, at + INVITE_TTL)), None, Some(client))]
            && t.history.issued == s.history.issued + {raw} && t.clock == at
  {
  }

  lemma StoreIssues()
    ensures forall s: State, at, tenant, u, raw, first ::
              var t := Store(s, at, tenant, u, raw, first);
              t.history.issued == s.history.issued + {raw} && t.clock == s.clock && t.assignments == s.assignments
  {
  }

  lemma RevokeIssues()
    ensures forall s: State, at, raws :: Revoke(s, at, raws).history.issued == s.history.issued && Revoke(s, at, raws).clock == s.clock
  {
  }

  // ---------- old reset links ----------

  ghost predicate Nowhere(users: map<string, User>, token: string) { forall v :: v in users ==> token !in Tickets(users[v]) }

  /** The event issues a new reset link to the user, or uses the one there is. */
  ghost predicate Replaces(s: State, e: Event, u: string) {
    (e.Forgot? && ByEmail(s.users, e.email) == Some(u) && s.users[u].active)
    || (e.Reset? && ByReset(s.users, e.link) == Some(u) && Answer(s, e) == Done)
  }

  ghost predicate ReplacedIn(s: State, es: seq<Event>, u: string)
    decreases |es|
  {
    es != [] && (Replaces(s, es[0], u) || ReplacedIn(Step(s, es[0]), es[1..], u))
  }

  /** A step only adds tickets that are new. */
  lemma StepTickets(s: State, e: Event)
    requires Inv(s) && Allowed(s, e)
    ensures forall v, k :: v in Step(s, e).users && k in Tickets(Step(s, e).users[v]) ==>
              (v in s.users && k in Tickets(s.users[v])) || k !in s.history.issued
  {
    hide UserInv, TokenInv, LiveInv, Revoke, Store, CleanUp;
    RevokeUsers();
  }

  lemma StepReset(s: State, e: Event, u: string)
    requires Inv(s) && Allowed(s, e) && u in s.users && s.users[u].reset.Some?
    ensures var t := Step(s, e); u in t.users && (if Replaces(s, e, u) then Nowhere(t.users, s.users[u].reset.value.token)
                                                  else t.users[u].reset == s.users[u].reset)
  {
    hide Inv, Step, Nowhere;
    if Replaces(s, e, u) { ResetGoes(s, e, u); } else { ResetKept(s, e, u); }
  }

  lemma ResetKept(s: State, e: Event, u: string)
    requires Inv(s) && Allowed(s, e) && u in s.users && !Replaces(s, e, u)
    ensures var t := Step(s, e); u in t.users && t.users[u].reset == s.users[u].reset
  {
    hide Inv, Revoke, Store, CleanUp;
    RevokeUsers();
  }

  lemma ResetGoes(s: State, e: Event, u: string)
    requires Inv(s) && Allowed(s, e) && u in s.users && s.users[u].reset.Some? && Replaces(s, e, u)
    ensures var t := Step(s, e); u in t.users && Nowhere(t.users, s.users[u].reset.value.token)
  {
    hide TokenInv, LiveInv, Revoke;
    RevokeUsers();
    var t, k := Step(s, e), s.users[u].reset.value.token;
    RowOk(s, u);
    assert k in Tickets(s.users[u]);
    forall v | v in s.users && v != u ensures k !in Tickets(s.users[v]) { assert Distinct(s.users[u], s.users[v]); }
    assert t.users == s.users[u := t.users[u]];
  }

  lemma {:induction false} StaysNowhere(s: State, es: seq<Event>, token: string)
    requires Inv(s) && AllowedRun(s, es) && token in s.history.issued && Nowhere(s.users, token)
    ensures Nowhere(Run(s, es).users, token)
    decreases |es|
  {
    hide Inv, Step, Allowed, Tickets;
    if es != [] {
      StepSound(s, es[0]);
      StepTickets(s, es[0]);
      IssuedGrows(s.history, Step(s, es[0]).history, token);
      StaysNowhere(Step(s, es[0]), es[1..], token);
    }
  }

  lemma IssuedGrows(h: History, h2: History, token: string)
    requires Grows(h, h2) && token in h.issued
    ensures token in h2.issued
  {
  }

  lemma {:induction false} ResetStays(s: State, es: seq<Event>, u: string)
    requires Inv(s) && AllowedRun(s, es) && u in s.users && s.users[u].reset.Some?
    ensures var z := Run(s, es);
            if ReplacedIn(s, es, u) then Nowhere(z.users, s.users[u].reset.value.token)
            else u in z.users && z.users[u].reset == s.users[u].reset
    decreases |es|
  {
    hide Inv, Step, Allowed, Nowhere, Replaces;
    if es != [] {
      StepSound(s, es[0]);
      StepReset(s, es[0], u);
      if Replaces(s, es[0], u) {
        ResetIssued(s, u);
        IssuedGrows(s.history, Step(s, es[0]).history, s.users[u].reset.value.token);
        StaysNowhere(Step(s, es[0]), es[1..], s.users[u].reset.value.token);
      } else {
        ResetStays(Step(s, es[0]), es[1..], u);
      }
    }
  }

  lemma ResetIssued(s: State, u: string)
    requires Inv(s) && u in s.users && s.users[u].reset.Some?
    ensures s.users[u].reset.value.token in s.history.issued
  {
    RowOk(s, u);
    assert s.users[u].reset.value.token in Tickets(s.users[u]);
  }

  /**
   When a reset link still takes effect: after any run it does exactly when no newer link was issued to its
   user and it was not used, the user is active at that moment, and its hour is not over. Removal and a new
   invitation do not take it away.
   */
  lemma OldLinkExactly(s: State, es: seq<Event>, u: string, at: int, password: string)
    requires Inv(s) && AllowedRun(s, es) && u in s.users && s.users[u].reset.Some?
    ensures var k := s.users[u].reset.value; var z := Run(s, es);
            Answer(z, Reset(at, k.token, password)) == Done <==>
            !ReplacedIn(s, es, u) && u in z.users && z.users[u].active && at <= k.expiresAt
  {
    hide Inv, Run, Revoke, ReplacedIn;
    RunSound(s, es);
    ResetStays(s, es, u);
    var k, z := s.users[u].reset.value, Run(s, es);
    if ReplacedIn(s, es, u) {
      NoReset(z.users, k.token);
    } else {
      OneReset(z, u, k.token);
    }
  }

  lemma NoReset(users: map<string, User>, token: string)
    requires Nowhere(users, token)
    ensures ByReset(users, token) == None
  {
    forall u | u in users ensures !HasReset(users[u], token) { assert token !in Tickets(users[u]); }
  }

  lemma RemovedRow(s: State, at: int, tenant: string, owner: string, u: string)
    requires u in s.users && s.users[u].tenant == tenant && u != owner && s.users[u].role != Owner
    ensures var t := Step(s, Remove(at, tenant, owner, u));
            t.users == s.users[u := s.users[u].(active := false, invite := None)]
            && t.history.issued == s.history.issued && t.clock == at
  {
    hide Revoke;
    RevokeUsers();
    RevokeIssues();
  }

  lemma ReinvitedRow(s: State, at: int, tenant: string, email: string, newUser: string, link: string, u: string)
    requires ByEmail(s.users, email) == Some(u) && u in s.users && !s.users[u].active && s.users[u].invite.None?
    ensures var t := Step(s, InviteStaff(at, tenant, email, true, true, newUser, link));
            t.users == s.users[u := s.users[u].(tenant := tenant, role := Staff, invite := Some(Ticket(link, at + INVITE_TTL)), password := None)]
            && t.history.issued == s.history.issued + {link} && t.clock == at
    ensures Answer(s, InviteStaff(at, tenant, email, true, true, newUser, link)) == Done
  {
  }

  lemma AcceptedRow(s: State, at: int, link: string, password: string, raw: string, u: string)
    requires ByInvite(s.users, link) == Some(u) && u in s.users && s.users[u].invite.Some?
    requires at <= s.users[u].invite.value.expiresAt && s.users[u].pendingClient.None?
    ensures var t := Step(s, Accept(at, link, password, true, raw));
            t.users == s.users[u := s.users[u].(password := Some(password), active := true, invite := None)]
  {
    hide Store;
    RevokeUsers();
  }

  /** A member is removed, invited again and accepts. */
  ghost function ReturnEvents(s: State, u: string, owner: string, link: string, password: string): seq<Event>
    requires u in s.users
  {
    [Remove(s.clock, s.users[u].tenant, owner, u),
     InviteStaff(s.clock, s.users[u].tenant, s.users[u].email, true, true, NewId(s), link),
     Accept(s.clock, link, password, true, NewToken(s, link))]
  }

  /** A member asks for a link, is removed, invited again and accepts; the link then still resets the password. */
  lemma OldLinkHappens(s: State, u: string, owner: string, link: string, es: seq<Event>, password: string)
    requires Inv(s) && u in s.users && s.users[u].active && s.users[u].role == Staff && s.users[u].reset.Some?
    requires u != owner && s.users[u].reset.value.expiresAt >= s.clock && s.users[u].pendingClient == None
    requires link !in s.history.issued && es == ReturnEvents(s, u, owner, link, password)
    ensures AllowedRun(s, es) && Answer(Run(s, es), Reset(s.clock, s.users[u].reset.value.token, password)) == Done
  {
    hide Inv, Run, AllowedRun, Step, ReplacedIn, Grows, Speaks, Answer, ByEmail, ByInvite, NewId, NewToken;
    var user, at := s.users[u], s.clock;
    RemovedRow(s, at, user.tenant, owner, u);
    StepSound(s, es[0]);
    var s1 := Step(s, es[0]);
    OneRow(s1, u);
    OnlyOne(s1.users, u, user.email);
    ReinvitedRow(s1, at, user.tenant, user.email, NewId(s), link, u);
    StepSound(s1, es[1]);
    var s2 := Step(s1, es[1]);
    OneInvite(s2, u, link);
    AcceptedRow(s2, at, link, password, NewToken(s, link), u);
    ThreeSteps(s, es);
    NotReplaced(s, es, u);
    OldLinkExactly(s, es, u, at, password);
  }

  lemma NotReplaced(s: State, es: seq<Event>, u: string)
    requires |es| == 3 && forall i :: 0 <= i < 3 ==> !es[i].Forgot? && !es[i].Reset?
    ensures !ReplacedIn(s, es, u)
  {
    hide Step;
    var s1 := Step(s, es[0]);
    var s2 := Step(s1, es[1]);
    assert es[1..][1..] == es[2..] && es[2..][1..] == [];
    assert !ReplacedIn(Step(s2, es[2]), [], u);
    assert !ReplacedIn(s2, es[2..], u);
    assert !ReplacedIn(s1, es[1..], u);
  }

  lemma ThreeSteps(s: State, es: seq<Event>)
    requires |es| == 3
    ensures var s1 := Step(s, es[0]); var s2 := Step(s1, es[1]); var s3 := Step(s2, es[2]);
            Run(s, es) == s3 && (AllowedRun(s, es) <==> Allowed(s, es[0]) && Allowed(s1, es[1]) && Allowed(s2, es[2]))
  {
    hide Step, Allowed;
    var s1 := Step(s, es[0]);
    var s2 := Step(s1, es[1]);
    assert es[1..][1..] == es[2..] && es[2..][1..] == [];
    assert Run(s1, es[1..]) == Run(Step(s1, es[1]), es[2..]);
    assert Run(s2, es[2..]) == Run(Step(s2, es[2]), []);
    assert AllowedRun(s2, es[2..]) <==> Allowed(s2, es[2]) && AllowedRun(Step(s2, es[2]), []);
  }

  /** Strings not used so far. */
  ghost function Fresh(used: set<string>): (x: string)
    ensures x !in used
  {
    var n: nat := LongerThan(used);
    seq(n, i => 'x')
  }

  ghost function LongerThan(used: set<string>): (n: nat)
    ensures forall x :: x in used ==> |x| < n
    decreases |used|
  {
    if used == {} then 0 else
    var x :| x in used;
    var n := LongerThan(used - {x});
    if |x| < n then n else |x| + 1
  }

  ghost function NewId(s: State): (x: string)
    ensures x !in s.users
  {
    Fresh(s.users.Keys)
  }

  ghost function NewToken(s: State, link: string): (x: string)
    ensures x !in s.history.issued && x != link
  {
    Fresh(s.history.issued + {link})
  }
}
