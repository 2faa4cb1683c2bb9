/**
 Accounts and sessions as one state machine: the rows of `users` and `refresh_tokens`, and every
 operation that writes them. A row keeps the raw token its SHA-256 digest stands for, a password
 stands for its bcrypt digest, and e-mail addresses are already in lower case. The history is not
 stored by the program; it records what has happened so that properties of whole runs can be stated.
 */
module Accounts {
  import opened Options

  const HOUR := 3_600_000
  const RETENTION := 30 * 24 * HOUR
  const INVITE_TTL := 48 * HOUR
  const RESET_TTL := HOUR

  datatype Role = Owner | Admin | Staff | ClientUser

  datatype Ticket = Ticket(token: string, expiresAt: int)

  datatype User = User(
    email: string, tenant: string, role: Role, active: bool, password: Option<string>,
    invite: Option<Ticket>, reset: Option<Ticket>, pendingClient: Option<string>)

  datatype RefreshToken = RefreshToken(tenant: string, user: string, expiresAt: int, revokedAt: Option<int>)

  /**
   issued: every random token handed out so far; chain: the login token each refresh token descends
   from; holder: whose it is; revoked: when it was revoked; spent: the invitations accepted and reset
   links used; owners: the registered owners and their agencies. Nothing is ever taken out.
   */
  datatype History = History(
    issued: set<string>, chain: map<string, string>, holder: map<string, string>,
    revoked: map<string, int>, spent: set<string>, owners: map<string, string>)

  datatype State = State(
    users: map<string, User>, tokens: map<string, RefreshToken>, assignments: set<(string, string)>,
    ttl: int, clock: int, history: History)

  datatype Error =
    | Conflict | BadCredentials | Inactive | NoPassword | NoToken | InvalidToken | Reused | Expired
    | LimitReached | AlreadyInvited | ClientGone | NotFound | Yourself | OwnerStays

  datatype Outcome =
    | Session(user: string, tenant: string, role: Role, refresh: string)
    | Done
    | Refused(error: Error)

  function Empty(ttl: int, clock: int): State {
    State(map[], map[], {}, ttl, clock, History({}, map[], map[], map[], {}, map[]))
  }

  // ---------- writes ----------

  function Put(s: State, u: string, user: User): State { s.(users := s.users[u := user]) }

  function Issue(s: State, token: string): State { s.(history := s.history.(issued := s.history.issued + {token})) }

  function Spend(s: State, token: string): State { s.(history := s.history.(spent := s.history.spent + {token})) }

  predicate IsLive(tokens: map<string, RefreshToken>, raw: string) {
    raw in tokens && tokens[raw].revokedAt.None?
  }

  /** storeRefreshToken; first is the login token at the head of its chain. */
  function Store(s: State, at: int, tenant: string, u: string, raw: string, first: string): State {
    s.(tokens := s.tokens[raw := RefreshToken(tenant, u, at + s.ttl, None)],
       history := s.history.(issued := s.history.issued + {raw}, chain := s.history.chain[raw := first],
                             holder := s.history.holder[raw := u]))
  }

  function LiveAmong(tokens: map<string, RefreshToken>, raws: set<string>): set<string> {
    set raw | raw in tokens && raw in raws && IsLive(tokens, raw)
  }

  function Marked(tokens: map<string, RefreshToken>, live: set<string>, at: int): map<string, RefreshToken> {
    map raw | raw in tokens :: if raw in live then tokens[raw].(revokedAt := Some(at)) else tokens[raw]
  }

  /** Marks those of the given tokens that are not yet revoked. */
  function Revoke(s: State, at: int, raws: set<string>): State {
    var live := LiveAmong(s.tokens, raws);
    s.(tokens := Marked(s.tokens, live, at),
       history := s.history.(revoked := s.history.revoked + map raw | raw in live :: at))
  }

  function TokensOf(tokens: map<string, RefreshToken>, u: string): set<string> {
    set raw | raw in tokens && tokens[raw].user == u
  }

  function RevokeAll(s: State, at: int, u: string): State { Revoke(s, at, TokensOf(s.tokens, u)) }

  predicate Stale(t: RefreshToken, at: int) {
    (t.expiresAt < at && t.revokedAt.None?) || (t.revokedAt.Some? && t.revokedAt.value < at - RETENTION)
  }

  function CleanUp(s: State, at: int): State {
    s.(tokens := map raw | raw in s.tokens && !Stale(s.tokens[raw], at) :: s.tokens[raw])
  }

  // ---------- look-ups ----------

  predicate HasInvite(user: User, token: string) {
    user.invite.Some? && user.invite.value.token == token && !user.active
  }

  predicate HasReset(user: User, token: string) { user.reset.Some? && user.reset.value.token == token }

  ghost function ByEmail(users: map<string, User>, email: string): (r: Option<string>)
    ensures r.Some? ==> r.value in users && users[r.value].email == email
    ensures r.None? ==> forall u :: u in users ==> users[u].email != email
  {
    if exists u :: u in users && users[u].email == email
    then var u :| u in users && users[u].email == email; Some(u) else None
  }

  ghost function ByInvite(users: map<string, User>, token: string): (r: Option<string>)
    ensures r.Some? ==> r.value in users && HasInvite(users[r.value], token)
    ensures r.None? ==> forall u :: u in users ==> !HasInvite(users[u], token)
  {
    if exists u :: u in users && HasInvite(users[u], token)
    then var u :| u in users && HasInvite(users[u], token); Some(u) else None
  }

  ghost function ByReset(users: map<string, User>, token: string): (r: Option<string>)
    ensures r.Some? ==> r.value in users && HasReset(users[r.value], token)
    ensures r.None? ==> forall u :: u in users ==> !HasReset(users[u], token)
  {
    if exists u :: u in users && HasReset(users[u], token)
    then var u :| u in users && HasReset(users[u], token); Some(u) else None
  }

  // ---------- operations ----------

  datatype Event =
    | Register(at: int, newUser: string, newTenant: string, email: string, password: string, raw: string)
    | Login(at: int, email: string, password: string, dummyMatches: bool, raw: string)
    | Refresh(at: int, presented: string, raw: string)
    | Logout(at: int, presented: string)
    | DeleteExpired(at: int)
    | Forgot(at: int, email: string, raw: string)
    | Reset(at: int, link: string, password: string)
    | InviteStaff(at: int, tenant: string, email: string, withinLimits: bool, stillWithin: bool, newUser: string, raw: string)
    | InviteClient(at: int, tenant: string, client: string, clientFound: bool, email: string, newUser: string, raw: string)
    | ResendInvite(at: int, tenant: string, email: string, raw: string)
    | ResendClientInvite(at: int, tenant: string, email: string, raw: string)
    | Accept(at: int, link: string, password: string, clientActive: bool, raw: string)
    | Remove(at: int, tenant: string, requester: string, target: string)

  ghost function DoRegister(s: State, at: int, u: string, tenant: string, email: string, password: string, raw: string)
    : (State, Outcome)
  {
    if ByEmail(s.users, email).Some? then (s, Refused(Conflict)) else
    var user := User(email, tenant, Owner, true, Some(password), None, None, None);
    var s1 := Put(s.(history := s.history.(owners := s.history.owners[u := tenant])), u, user);
    (Store(s1, at, tenant, u, raw, raw), Session(u, tenant, Owner, raw))
  }

  ghost function DoLogin(s: State, at: int, email: string, password: string, dummyMatches: bool, raw: string)
    : (State, Outcome)
  {
    match ByEmail(s.users, email)
    case None => (s, Refused(BadCredentials))
    case Some(u) =>
      var user := s.users[u];
      var matches := if user.password.Some? then user.password.value == password else dummyMatches;
      if !matches then (s, Refused(BadCredentials))
      else if !user.active then (s, Refused(Inactive))
      else if user.password.None? then (s, Refused(NoPassword))
      else (Store(s, at, user.tenant, u, raw, raw), Session(u, user.tenant, user.role, raw))
  }

  function DoRefresh(s: State, at: int, presented: string, raw: string): (State, Outcome) {
    if presented == "" then (s, Refused(NoToken))
    else if presented !in s.tokens then (s, Refused(InvalidToken))
    else
      var t := s.tokens[presented];
      if t.revokedAt.Some? then (RevokeAll(s, at, t.user), Refused(Reused))
      else if t.expiresAt < at then (s, Refused(Expired))
      else
        var s1 := Revoke(s, at, {presented});
        if t.user !in s.users then (s1, Refused(NotFound))
        else if !s.users[t.user].active then (s1, Refused(Inactive))
        else
          var first := if presented in s.history.chain then s.history.chain[presented] else presented;
          (Store(s1, at, t.tenant, t.user, raw, first),
           Session(t.user, s.users[t.user].tenant, s.users[t.user].role, raw))
  }

  ghost function DoForgot(s: State, at: int, email: string, raw: string): (State, Outcome) {
    match ByEmail(s.users, email)
    case None => (s, Done)
    case Some(u) =>
      if !s.users[u].active then (s, Done) else
      (Issue(Put(s, u, s.users[u].(reset := Some(Ticket(raw, at + RESET_TTL)))), raw), Done)
  }

  ghost function DoReset(s: State, at: int, link: string, password: string): (State, Outcome) {
    match ByReset(s.users, link)
    case None => (s, Refused(InvalidToken))
    case Some(u) =>
      var user := s.users[u];
      if !user.active then (s, Refused(Inactive))
      else if user.reset.value.expiresAt < at then (s, Refused(Expired))
      else (RevokeAll(Spend(Put(s, u, user.(password := Some(password), reset := None)), link), at, u), Done)
  }

  ghost function DoInviteStaff(s: State, at: int, tenant: string, email: string, withinLimits: bool, stillWithin: bool,
                               newUser: string, raw: string): (State, Outcome)
  {
    if !withinLimits then (s, Refused(LimitReached)) else
    var ticket := Some(Ticket(raw, at + INVITE_TTL));
    match ByEmail(s.users, email)
    case None =>
      if !stillWithin then (s, Refused(LimitReached)) else
      (Issue(Put(s, newUser, User(email, tenant, Staff, false, None, ticket, None, None)), raw), Done)
    case Some(u) =>
      var user := s.users[u];
      if user.active then (s, Refused(Conflict))
      else if user.invite.Some? then (s, Refused(AlreadyInvited))
      else if !stillWithin then (s, Refused(LimitReached))
      else (Issue(Put(s, u, user.(tenant := tenant, role := Staff, invite := ticket, password := None)), raw), Done)
  }

  ghost function DoInviteClient(s: State, at: int, tenant: string, client: string, clientFound: bool, email: string,
                                newUser: string, raw: string): (State, Outcome)
  {
    if !clientFound then (s, Refused(NotFound)) else
    match ByEmail(s.users, email)
    case Some(u) => (s, Refused(if s.users[u].active then Conflict else AlreadyInvited))
    case None =>
      var user := User(email, tenant, ClientUser, false, None, Some(Ticket(raw, at + INVITE_TTL)), None, Some(client));
      (Issue(Put(s, newUser, user), raw), Done)
  }

  /** Both resends: any inactive user of the tenant, removed members included. */
  ghost function DoResend(s: State, at: int, tenant: string, email: string, clientOnly: bool, raw: string): (State, Outcome) {
    match ByEmail(s.users, email)
    case None => (s, Refused(NotFound))
    case Some(u) =>
      var user := s.users[u];
      if user.tenant != tenant || user.active || (clientOnly && user.role != ClientUser) then (s, Refused(NotFound))
      else (Issue(Put(s, u, user.(invite := Some(Ticket(raw, at + INVITE_TTL)))), raw), Done)
  }

  ghost function DoAccept(s: State, at: int, link: string, password: string, clientActive: bool, raw: string)
    : (State, Outcome)
  {
    match ByInvite(s.users, link)
    case None => (s, Refused(InvalidToken))
    case Some(u) =>
      var user := s.users[u];
      if user.invite.value.expiresAt < at then (s, Refused(Expired))
      else if user.pendingClient.Some? && !clientActive then (s, Refused(ClientGone))
      else
        var joined := user.(password := Some(password), active := true, invite := None, pendingClient := None);
        var assignments := if user.pendingClient.Some? then s.assignments + {(u, user.pendingClient.value)} else s.assignments;
        var s1 := Spend(Put(s.(assignments := assignments), u, joined), link);
        (Store(s1, at, user.tenant, u, raw, raw), Session(u, user.tenant, user.role, raw))
  }

  function DoRemove(s: State, at: int, tenant: string, requester: string, target: string): (State, Outcome) {
    if target !in s.users || s.users[target].tenant != tenant then (s, Refused(NotFound))
    else if target == requester then (s, Refused(Yourself))
    else if s.users[target].role == Owner then (s, Refused(OwnerStays))
    else (RevokeAll(Put(s, target, s.users[target].(active := false, invite := None)), at, target), Done)
  }

  ghost function Do(s: State, e: Event): (State, Outcome) {
    match e
    case Register(at, u, tenant, email, password, raw) => DoRegister(s, at, u, tenant, email, password, raw)
    case Login(at, email, password, dummy, raw) => DoLogin(s, at, email, password, dummy, raw)
    case Refresh(at, presented, raw) => DoRefresh(s, at, presented, raw)
    case Logout(at, presented) => (if presented == "" then s else Revoke(s, at, {presented}), Done)
    case DeleteExpired(at) => (CleanUp(s, at), Done)
    case Forgot(at, email, raw) => DoForgot(s, at, email, raw)
    case Reset(at, link, password) => DoReset(s, at, link, password)
    case InviteStaff(at, tenant, email, pre, still, u, raw) => DoInviteStaff(s, at, tenant, email, pre, still, u, raw)
    case InviteClient(at, tenant, client, found, email, u, raw) => DoInviteClient(s, at, tenant, client, found, email, u, raw)
    case ResendInvite(at, tenant, email, raw) => DoResend(s, at, tenant, email, false, raw)
    case ResendClientInvite(at, tenant, email, raw) => DoResend(s, at, tenant, email, true, raw)
    case Accept(at, link, password, clientActive, raw) => DoAccept(s, at, link, password, clientActive, raw)
    case Remove(at, tenant, requester, target) => DoRemove(s, at, tenant, requester, target)
  }

  ghost function Step(s: State, e: Event): State { Do(s.(clock := e.at), e).0 }

  ghost function Answer(s: State, e: Event): Outcome { Do(s.(clock := e.at), e).1 }

  ghost function Run(s: State, es: seq<Event>): State
    decreases |es|
  {
    if es == [] then s else Run(Step(s, es[0]), es[1..])
  }

  predicate DrawsToken(e: Event) { !(e.Logout? || e.DeleteExpired? || e.Reset? || e.Remove?) }

  /** What the environment grants: the clock does not go back, and random tokens and row ids are new. */
  ghost predicate Allowed(s: State, e: Event) {
    s.clock <= e.at
    && (DrawsToken(e) ==> e.raw !in s.history.issued)
    && (e.Register? || e.InviteStaff? || e.InviteClient? ==> e.newUser !in s.users)
  }

  ghost predicate AllowedRun(s: State, es: seq<Event>)
    decreases |es|
  {
    es == [] || (Allowed(s, es[0]) && AllowedRun(Step(s, es[0]), es[1..]))
  }

  // ---------- the invariant ----------

  function Tickets(user: User): set<string> {
    (if user.invite.Some? then {user.invite.value.token} else {})
    + (if user.reset.Some? then {user.reset.value.token} else {})
  }

  ghost predicate UserOk(u: string, user: User, h: History) {
    (user.active ==> user.invite.None? && user.password.Some?)
    && (user.role == Owner <==> u in h.owners)
    && (u in h.owners ==> user.active && user.tenant == h.owners[u])
    && (user.invite.Some? && user.reset.Some? ==> user.invite.value.token != user.reset.value.token)
    && Tickets(user) <= h.issued && Tickets(user) !! h.spent
  }

  ghost predicate Distinct(a: User, b: User) { a.email != b.email && Tickets(a) !! Tickets(b) }

  ghost predicate UserInv(users: map<string, User>, h: History) {
    (forall u :: u in users ==> UserOk(u, users[u], h))
    && (forall u, v :: u in users && v in users && u != v ==> Distinct(users[u], users[v]))
    && h.owners.Keys <= users.Keys && h.spent <= h.issued
  }

  ghost predicate TokenOk(raw: string, t: RefreshToken, h: History) {
    raw in h.holder && h.holder[raw] == t.user && raw in h.chain
    && (t.revokedAt.Some? <==> raw in h.revoked) && (raw in h.revoked ==> t.revokedAt == Some(h.revoked[raw]))
  }

  ghost predicate OneLive(tokens: map<string, RefreshToken>, h: History) {
    forall a, b :: IsLive(tokens, a) && IsLive(tokens, b) && a in h.chain && b in h.chain && h.chain[a] == h.chain[b] ==> a == b
  }

  /** A revoked token stays known for thirty days. */
  ghost predicate Remembered(raw: string, tokens: map<string, RefreshToken>, h: History, clock: int) {
    raw in h.revoked ==>
    raw in h.holder && h.revoked[raw] <= clock && (raw !in tokens ==> h.revoked[raw] < clock - RETENTION)
  }

  ghost predicate Known(raw: string, h: History) {
    (raw in h.chain ==> raw in h.issued && h.chain[raw] in h.issued) && (raw in h.holder ==> raw in h.issued)
  }

  ghost predicate TokenInv(tokens: map<string, RefreshToken>, h: History, clock: int) {
    (forall raw :: raw in tokens ==> TokenOk(raw, tokens[raw], h))
    && OneLive(tokens, h)
    && (forall raw :: Known(raw, h))
    && (forall raw :: Remembered(raw, tokens, h, clock))
  }

  ghost predicate Backed(t: RefreshToken, users: map<string, User>) {
    t.user in users && users[t.user].active && users[t.user].tenant == t.tenant
  }

  ghost predicate LiveInv(users: map<string, User>, tokens: map<string, RefreshToken>) {
    forall raw :: IsLive(tokens, raw) ==> Backed(tokens[raw], users)
  }

  ghost predicate Inv(s: State) {
    UserInv(s.users, s.history) && TokenInv(s.tokens, s.history, s.clock) && LiveInv(s.users, s.tokens)
  }

  ghost predicate NoLive(tokens: map<string, RefreshToken>, u: string) {
    forall raw :: IsLive(tokens, raw) ==> tokens[raw].user != u
  }

  // ---------- what each kind of write keeps ----------

  lemma PutKeeps(users: map<string, User>, h: History, u: string, user: User, h2: History)
    requires UserInv(users, h)
    requires h.issued <= h2.issued && h2.spent <= h2.issued
    requires forall t :: t in h2.spent ==> t in h.spent || (u in users && t in Tickets(users[u]))
    requires forall v :: v != u ==> (v in h2.owners <==> v in h.owners)
    requires forall v :: v != u && v in h.owners ==> h2.owners[v] == h.owners[v]
    requires UserOk(u, user, h2)
    requires if u in users then user.email == users[u].email else forall v :: v in users ==> users[v].email != user.email
    requires forall t :: t in Tickets(user) ==> t !in h.issued || (u in users && t in Tickets(users[u]))
    ensures UserInv(users[u := user], h2)
  {
    hide Tickets;
    var users2 := users[u := user];
    forall v | v in users && v != u ensures UserOk(v, users2[v], h2) && Distinct(users[v], user) && Distinct(user, users[v]) {
      assert UserOk(v, users[v], h);
      assert u in users ==> Distinct(users[u], users[v]);
    }
    forall v, w | v in users2 && w in users2 && v != w ensures Distinct(users2[v], users2[w]) {
    }
  }

  lemma StoreKeeps(s: State, at: int, tenant: string, u: string, raw: string, first: string)
    requires TokenInv(s.tokens, s.history, s.clock) && raw !in s.history.issued
    requires first == raw || (first in s.history.issued
                              && forall a :: IsLive(s.tokens, a) && a in s.history.chain ==> s.history.chain[a] != first)
    ensures var s2 := Store(s, at, tenant, u, raw, first); TokenInv(s2.tokens, s2.history, s2.clock)
  {
    var s2 := Store(s, at, tenant, u, raw, first);
    var h, h2 := s.history, s2.history;
    assert Known(raw, h);
    assert raw !in h.revoked by { assert Remembered(raw, s.tokens, h, s.clock); }
    forall x ensures Known(x, h2) && Remembered(x, s2.tokens, h2, s.clock) {
      assert Known(x, h) && Remembered(x, s.tokens, h, s.clock);
    }
    forall x | x in s2.tokens ensures TokenOk(x, s2.tokens[x], h2) {
      assert x != raw ==> TokenOk(x, s.tokens[x], h);
    }
    forall a, b | IsLive(s2.tokens, a) && IsLive(s2.tokens, b) && a in h2.chain && b in h2.chain && h2.chain[a] == h2.chain[b]
      ensures a == b
    {
      assert Known(a, h) && Known(b, h);
      assert a != raw ==> IsLive(s.tokens, a) && TokenOk(a, s.tokens[a], h);
      assert b != raw ==> IsLive(s.tokens, b) && TokenOk(b, s.tokens[b], h);
    }
  }

  lemma RevokeKeeps(s: State, at: int, raws: set<string>)
    requires TokenInv(s.tokens, s.history, s.clock) && at == s.clock
    ensures var s2 := Revoke(s, at, raws);
            TokenInv(s2.tokens, s2.history, s2.clock) && forall raw :: IsLive(s2.tokens, raw) <==> IsLive(s.tokens, raw) && raw !in raws
    ensures forall raw :: IsLive(s.tokens, raw) && raw in raws ==> raw in Revoke(s, at, raws).history.revoked
  {
    var s2 := Revoke(s, at, raws);
    var h, h2 := s.history, s2.history;
    forall x ensures Known(x, h2) && Remembered(x, s2.tokens, h2, s.clock) {
      assert Known(x, h) && Remembered(x, s.tokens, h, s.clock);
      assert x in s.tokens ==> TokenOk(x, s.tokens[x], h);
    }
    forall x | x in s2.tokens ensures TokenOk(x, s2.tokens[x], h2) {
      assert TokenOk(x, s.tokens[x], h);
    }
  }

  lemma RevokeAllKeeps(s: State, at: int, u: string)
    requires TokenInv(s.tokens, s.history, s.clock) && at == s.clock
    ensures var s2 := RevokeAll(s, at, u); TokenInv(s2.tokens, s2.history, s2.clock) && NoLive(s2.tokens, u)
    ensures forall raw :: IsLive(RevokeAll(s, at, u).tokens, raw) ==>
              IsLive(s.tokens, raw) && RevokeAll(s, at, u).tokens[raw] == s.tokens[raw]
  {
    RevokeKeeps(s, at, TokensOf(s.tokens, u));
  }

  lemma CleanUpKeeps(s: State, at: int)
    requires TokenInv(s.tokens, s.history, s.clock) && at == s.clock
    ensures var s2 := CleanUp(s, at);
            TokenInv(s2.tokens, s2.history, s2.clock) && forall raw :: IsLive(s2.tokens, raw) ==> IsLive(s.tokens, raw)
  {
    var s2 := CleanUp(s, at);
    forall x ensures Remembered(x, s2.tokens, s.history, s.clock) {
      assert Remembered(x, s.tokens, s.history, s.clock);
      assert x in s.tokens ==> TokenOk(x, s.tokens[x], s.history);
    }
  }

  /** Writing a row leaves the live tokens backed when the user has none, or stays active in the tenant. */
  lemma PutKeepsLive(users: map<string, User>, tokens: map<string, RefreshToken>, u: string, user: User)
    requires LiveInv(users, tokens)
    requires NoLive(tokens, u) || (u in users && user.active && user.tenant == users[u].tenant)
    ensures LiveInv(users[u := user], tokens)
  {
    forall raw | IsLive(tokens, raw) ensures Backed(tokens[raw], users[u := user]) {
      assert Backed(tokens[raw], users);
    }
  }

  lemma NoneLive(users: map<string, User>, tokens: map<string, RefreshToken>, u: string)
    requires LiveInv(users, tokens) && (u in users ==> !users[u].active)
    ensures NoLive(tokens, u)
  {
    forall raw | IsLive(tokens, raw) ensures tokens[raw].user != u { assert Backed(tokens[raw], users); }
  }

  lemma ClockKeeps(s: State, at: int)
    requires Inv(s) && s.clock <= at
    ensures Inv(s.(clock := at))
  {
    forall raw ensures Remembered(raw, s.tokens, s.history, at) {
      assert Remembered(raw, s.tokens, s.history, s.clock);
    }
  }

  /** Handing out or spending tokens that no refresh token uses leaves the token side alone. */
  lemma HistoryGrows(tokens: map<string, RefreshToken>, h: History, h2: History, clock: int)
    requires TokenInv(tokens, h, clock)
    requires h.issued <= h2.issued && h2.chain == h.chain && h2.holder == h.holder && h2.revoked == h.revoked
    ensures TokenInv(tokens, h2, clock)
  {
    forall raw ensures Known(raw, h2) && Remembered(raw, tokens, h2, clock) {
      assert Known(raw, h) && Remembered(raw, tokens, h, clock);
    }
    forall raw | raw in tokens ensures TokenOk(raw, tokens[raw], h2) { assert TokenOk(raw, tokens[raw], h); }
  }

  /** The user side of the history only looks at what was issued and spent and who owns what. */
  lemma UsersIgnoreTokens(users: map<string, User>, h: History, h2: History)
    requires UserInv(users, h)
    requires h.issued <= h2.issued && h2.spent == h.spent && h2.owners == h.owners
    ensures UserInv(users, h2)
  {
    forall u | u in users ensures UserOk(u, users[u], h2) { assert UserOk(u, users[u], h); }
  }

  // ---------- what each operation keeps ----------

  ghost predicate Grows(h: History, h2: History) {
    h.issued <= h2.issued && h.spent <= h2.spent
    && (forall raw :: raw in h.holder ==> raw in h2.holder && h2.holder[raw] == h.holder[raw])
    && (forall raw :: raw in h.revoked ==> raw in h2.revoked && h2.revoked[raw] == h.revoked[raw])
    && (forall u :: u in h.owners ==> u in h2.owners && h2.owners[u] == h.owners[u])
  }

  /** A session handed out belongs to an active user, in the tenant and role the user has. */
  ghost predicate Speaks(s: State, out: Outcome) {
    out.Session? ==>
    out.user in s.users && s.users[out.user].active && s.users[out.user].tenant == out.tenant
    && s.users[out.user].role == out.role && IsLive(s.tokens, out.refresh) && s.tokens[out.refresh].user == out.user
    && s.tokens[out.refresh].tenant == out.tenant
  }

  ghost predicate Sound(s: State, r: (State, Outcome)) {
    Inv(r.0) && Grows(s.history, r.0.history) && Speaks(r.0, r.1) && r.0.clock == s.clock
  }

  lemma StoreSound(s: State, at: int, u: string, raw: string, first: string)
    requires Inv(s) && raw !in s.history.issued
    requires first == raw || (first in s.history.issued
                              && forall a :: IsLive(s.tokens, a) && a in s.history.chain ==> s.history.chain[a] != first)
    requires u in s.users && s.users[u].active
    ensures var user := s.users[u];
            Sound(s, (Store(s, at, user.tenant, u, raw, first), Session(u, user.tenant, user.role, raw)))
  {
    var tenant := s.users[u].tenant;
    var s2 := Store(s, at, tenant, u, raw, first);
    assert Known(raw, s.history);
    StoreKeeps(s, at, tenant, u, raw, first);
    UsersIgnoreTokens(s.users, s.history, s2.history);
    forall x | IsLive(s2.tokens, x) ensures Backed(s2.tokens[x], s2.users) {
      assert x != raw ==> Backed(s.tokens[x], s.users);
    }
  }

  lemma RevokeSound(s: State, at: int, raws: set<string>)
    requires Inv(s) && at == s.clock
    ensures Inv(Revoke(s, at, raws)) && Grows(s.history, Revoke(s, at, raws).history)
  {
    var s2 := Revoke(s, at, raws);
    RevokeKeeps(s, at, raws);
    UsersIgnoreTokens(s.users, s.history, s2.history);
    forall x | IsLive(s2.tokens, x) ensures Backed(s2.tokens[x], s2.users) { assert Backed(s.tokens[x], s.users); }
    forall x | x in s.history.revoked ensures s2.history.revoked[x] == s.history.revoked[x] {
      assert x in s.tokens ==> TokenOk(x, s.tokens[x], s.history);
    }
  }

  lemma RegisterSound(s: State, at: int, u: string, tenant: string, email: string, password: string, raw: string)
    requires Inv(s) && at == s.clock && u !in s.users && raw !in s.history.issued
    ensures Sound(s, DoRegister(s, at, u, tenant, email, password, raw))
  {
    hide UserInv, TokenInv, LiveInv, Store;
    if ByEmail(s.users, email).None? {
      var user := User(email, tenant, Owner, true, Some(password), None, None, None);
      var h2 := s.history.(owners := s.history.owners[u := tenant]);
      var s1 := Put(s.(history := h2), u, user);
      NoneLive(s.users, s.tokens, u);
      NotYetOwner(s, u);
      PutKeeps(s.users, s.history, u, user, h2);
      HistoryGrows(s.tokens, s.history, h2, s.clock);
      PutKeepsLive(s.users, s.tokens, u, user);
      StoreSound(s1, at, u, raw, raw);
    }
  }

  lemma NotYetOwner(s: State, u: string)
    requires Inv(s) && u !in s.users
    ensures u !in s.history.owners && s.history.spent <= s.history.issued
  {
  }

  lemma LoginSound(s: State, at: int, email: string, password: string, dummyMatches: bool, raw: string)
    requires Inv(s) && at == s.clock && raw !in s.history.issued
    ensures Sound(s, DoLogin(s, at, email, password, dummyMatches, raw))
    ensures DoLogin(s, at, email, password, dummyMatches, raw).1 != Refused(NoPassword)
  {
    hide UserInv, TokenInv, LiveInv, Store;
    var r := ByEmail(s.users, email);
    if r.Some? {
      RowOk(s, r.value);
      if s.users[r.value].active { StoreSound(s, at, r.value, raw, raw); }
    }
  }

  lemma RowOk(s: State, u: string)
    requires Inv(s) && u in s.users
    ensures UserOk(u, s.users[u], s.history) && s.history.spent <= s.history.issued
  {
  }

  lemma RefreshSound(s: State, at: int, presented: string, raw: string)
    requires Inv(s) && at == s.clock && raw !in s.history.issued
    ensures Sound(s, DoRefresh(s, at, presented, raw))
    ensures DoRefresh(s, at, presented, raw).1 !in {Refused(Inactive), Refused(NotFound)}
  {
    hide UserInv, TokenInv, LiveInv, Store, Revoke;
    if presented in s.tokens {
      var t := s.tokens[presented];
      RevokeSound(s, at, TokensOf(s.tokens, t.user));
      RevokeClock(s, at, TokensOf(s.tokens, t.user));
      if t.revokedAt.None? && t.expiresAt >= at {
        RevokeSound(s, at, {presented});
        LiveRow(s, presented);
        ChainEnds(s, at, presented, raw);
        StoreSound(Revoke(s, at, {presented}), at, t.user, raw, s.history.chain[presented]);
      }
    }
  }

  lemma LiveRow(s: State, raw: string)
    requires Inv(s) && IsLive(s.tokens, raw)
    ensures Backed(s.tokens[raw], s.users) && TokenOk(raw, s.tokens[raw], s.history)
  {
  }

  /** Once its live token is revoked, a chain has none. */
  lemma ChainEnds(s: State, at: int, presented: string, raw: string)
    requires Inv(s) && at == s.clock && IsLive(s.tokens, presented) && presented in s.history.chain
    requires raw !in s.history.issued
    ensures var s1 := Revoke(s, at, {presented}); var first := s.history.chain[presented];
            first in s1.history.issued && raw !in s1.history.issued && s1.users == s.users && s1.clock == s.clock &&
            s1.history.chain == s.history.chain &&
            forall a :: IsLive(s1.tokens, a) && a in s1.history.chain ==> s1.history.chain[a] != first
  {
    RevokeKeeps(s, at, {presented});
    assert Known(presented, s.history);
  }

  lemma CleanUpSound(s: State, at: int)
    requires Inv(s) && at == s.clock
    ensures Sound(s, (CleanUp(s, at), Done))
  {
    CleanUpKeeps(s, at);
    var s2 := CleanUp(s, at);
    forall x | IsLive(s2.tokens, x) ensures Backed(s2.tokens[x], s2.users) { assert Backed(s.tokens[x], s.users); }
  }

  /** Issuing a ticket to one user: the row keeps its e-mail and what it keeps of its tickets. */
  lemma TicketSound(s: State, u: string, user: User, raw: string)
    requires Inv(s) && raw !in s.history.issued
    requires UserOk(u, user, s.history.(issued := s.history.issued + {raw}))
    requires if u in s.users then user.email == s.users[u].email
             else forall v :: v in s.users ==> s.users[v].email != user.email
    requires forall t :: t in Tickets(user) ==> t == raw || (u in s.users && t in Tickets(s.users[u]))
    requires (u in s.users && s.users[u].active) ==> user.active && user.tenant == s.users[u].tenant
    ensures Sound(s, (Issue(Put(s, u, user), raw), Done))
  {
    hide UserInv, TokenInv, LiveInv, UserOk, Tickets;
    var h2 := s.history.(issued := s.history.issued + {raw});
    if u in s.users { RowOk(s, u); } else { NotYetOwner(s, u); }
    PutKeeps(s.users, s.history, u, user, h2);
    HistoryGrows(s.tokens, s.history, h2, s.clock);
    if u !in s.users || !s.users[u].active { NoneLive(s.users, s.tokens, u); }
    PutKeepsLive(s.users, s.tokens, u, user);
  }

  lemma ForgotSound(s: State, at: int, email: string, raw: string)
    requires Inv(s) && at == s.clock && raw !in s.history.issued
    ensures Sound(s, DoForgot(s, at, email, raw))
  {
    hide UserInv, TokenInv, LiveInv;
    var r := ByEmail(s.users, email);
    if r.Some? && s.users[r.value].active {
      RowOk(s, r.value);
      TicketSound(s, r.value, s.users[r.value].(reset := Some(Ticket(raw, at + RESET_TTL))), raw);
    }
  }

  lemma InviteStaffSound(s: State, at: int, tenant: string, email: string, pre: bool, still: bool, newUser: string, raw: string)
    requires Inv(s) && at == s.clock && raw !in s.history.issued && newUser !in s.users
    ensures Sound(s, DoInviteStaff(s, at, tenant, email, pre, still, newUser, raw))
  {
    hide UserInv, TokenInv, LiveInv;
    var ticket := Some(Ticket(raw, at + INVITE_TTL));
    match ByEmail(s.users, email)
    case None =>
      NotYetOwner(s, newUser);
      TicketSound(s, newUser, User(email, tenant, Staff, false, None, ticket, None, None), raw);
    case Some(u) =>
      var user := s.users[u];
      RowOk(s, u);
      if !user.active && user.invite.None? {
        TicketSound(s, u, user.(tenant := tenant, role := Staff, invite := ticket, password := None), raw);
      }
  }

  lemma InviteClientSound(s: State, at: int, tenant: string, client: string, found: bool, email: string, newUser: string, raw: string)
    requires Inv(s) && at == s.clock && raw !in s.history.issued && newUser !in s.users
    ensures Sound(s, DoInviteClient(s, at, tenant, client, found, email, newUser, raw))
  {
    hide UserInv, TokenInv, LiveInv;
    if ByEmail(s.users, email).None? {
      NotYetOwner(s, newUser);
      TicketSound(s, newUser, User(email, tenant, ClientUser, false, None, Some(Ticket(raw, at + INVITE_TTL)), None, Some(client)), raw);
    }
  }

  lemma ResendSound(s: State, at: int, tenant: string, email: string, clientOnly: bool, raw: string)
    requires Inv(s) && at == s.clock && raw !in s.history.issued
    ensures Sound(s, DoResend(s, at, tenant, email, clientOnly, raw))
  {
    hide UserInv, TokenInv, LiveInv;
    var r := ByEmail(s.users, email);
    if r.Some? && !s.users[r.value].active {
      RowOk(s, r.value);
      TicketSound(s, r.value, s.users[r.value].(invite := Some(Ticket(raw, at + INVITE_TTL))), raw);
    }
  }

  /** Using up a ticket of an active or newly activated user. */
  lemma SpendSound(s: State, u: string, user: User, link: string)
    requires Inv(s) && u in s.users && link in Tickets(s.users[u])
    requires user.email == s.users[u].email && user.tenant == s.users[u].tenant && user.active
    requires UserOk(u, user, s.history.(spent := s.history.spent + {link})) && Tickets(user) <= Tickets(s.users[u])
    ensures Inv(Spend(Put(s, u, user), link)) && Grows(s.history, Spend(Put(s, u, user), link).history)
  {
    hide UserInv, TokenInv, LiveInv;
    var h2 := s.history.(spent := s.history.spent + {link});
    RowOk(s, u);
    PutKeeps(s.users, s.history, u, user, h2);
    HistoryGrows(s.tokens, s.history, h2, s.clock);
    if !s.users[u].active { NoneLive(s.users, s.tokens, u); }
    PutKeepsLive(s.users, s.tokens, u, user);
  }

  lemma ResetSound(s: State, at: int, link: string, password: string)
    requires Inv(s) && at == s.clock
    ensures Sound(s, DoReset(s, at, link, password))
  {
    hide UserInv, TokenInv, LiveInv, Revoke;
    var r := ByReset(s.users, link);
    if r.Some? && s.users[r.value].active {
      var u, user := r.value, s.users[r.value];
      RowOk(s, u);
      SpendSound(s, u, user.(password := Some(password), reset := None), link);
      var s1 := Spend(Put(s, u, user.(password := Some(password), reset := None)), link);
      RevokeSound(s1, at, TokensOf(s1.tokens, u));
      RevokeClock(s1, at, TokensOf(s1.tokens, u));
    }
  }

  lemma RevokeClock(s: State, at: int, raws: set<string>)
    ensures Revoke(s, at, raws).clock == s.clock && Revoke(s, at, raws).users == s.users
  {
  }

  lemma JoinedOk(u: string, user: User, h: History, link: string, password: string)
    requires UserOk(u, user, h) && HasInvite(user, link)
    ensures var joined := user.(password := Some(password), active := true, invite := None, pendingClient := None);
            UserOk(u, joined, h.(spent := h.spent + {link})) && Tickets(joined) <= Tickets(user) && link in Tickets(user)
  {
  }

  lemma AcceptSound(s: State, at: int, link: string, password: string, clientActive: bool, raw: string)
    requires Inv(s) && at == s.clock && raw !in s.history.issued
    ensures Sound(s, DoAccept(s, at, link, password, clientActive, raw))
  {
    hide UserInv, TokenInv, LiveInv, Store, UserOk, Tickets, ByInvite;
    var r := ByInvite(s.users, link);
    if r.Some? {
      var u, user := r.value, s.users[r.value];
      var joined := user.(password := Some(password), active := true, invite := None, pendingClient := None);
      var assignments := if user.pendingClient.Some? then s.assignments + {(u, user.pendingClient.value)} else s.assignments;
      RowOk(s, u);
      JoinedOk(u, user, s.history, link, password);
      SpendSound(s.(assignments := assignments), u, joined, link);
      StoreSound(Spend(Put(s.(assignments := assignments), u, joined), link), at, u, raw, raw);
    }
  }

  lemma RemoveSound(s: State, at: int, tenant: string, requester: string, target: string)
    requires Inv(s) && at == s.clock
    ensures Sound(s, DoRemove(s, at, tenant, requester, target))
  {
    hide UserInv, TokenInv, LiveInv, Revoke;
    if target in s.users && s.users[target].role != Owner {
      var user := s.users[target].(active := false, invite := None);
      RowOk(s, target);
      RevokeSound(s, at, TokensOf(s.tokens, target));
      RevokeAllKeeps(s, at, target);
      RevokeClock(s, at, TokensOf(s.tokens, target));
      var s1 := RevokeAll(s, at, target);
      RowOk(s1, target);
      PutKeeps(s.users, s1.history, target, user, s1.history);
      PutKeepsLive(s.users, s1.tokens, target, user);
      PutThenRevoke(s, at, target, user);
    }
  }

  lemma PutThenRevoke(s: State, at: int, u: string, user: User)
    ensures RevokeAll(Put(s, u, user), at, u) == Put(RevokeAll(s, at, u), u, user)
  {
  }

  // ---------- every step and every run ----------

  /** No step breaks the invariant, forgets history, or opens a session for anyone but its active user. */
  lemma StepSound(s: State, e: Event)
    requires Inv(s) && Allowed(s, e)
    ensures Inv(Step(s, e)) && Grows(s.history, Step(s, e).history) && Speaks(Step(s, e), Answer(s, e))
    ensures Step(s, e).clock == e.at
    ensures e.Login? ==> Answer(s, e) != Refused(NoPassword)
    ensures e.Refresh? ==> Answer(s, e) !in {Refused(Inactive), Refused(NotFound)}
  {
    hide Inv, Grows, Speaks, DoRegister, DoLogin, DoRefresh, DoForgot, DoReset, DoInviteStaff, DoInviteClient, DoResend, DoAccept, DoRemove;
    ClockKeeps(s, e.at);
    var t := s.(clock := e.at);
    match e
    case Register(at, u, tenant, email, password, raw) => RegisterSound(t, at, u, tenant, email, password, raw);
    case Login(at, email, password, dummy, raw) => LoginSound(t, at, email, password, dummy, raw);
    case Refresh(at, presented, raw) => RefreshSound(t, at, presented, raw);
    case Logout(at, presented) => LogoutSound(t, at, presented);
    case DeleteExpired(at) => CleanUpSound(t, at);
    case Forgot(at, email, raw) => ForgotSound(t, at, email, raw);
    case Reset(at, link, password) => ResetSound(t, at, link, password);
    case InviteStaff(at, tenant, email, pre, still, u, raw) => InviteStaffSound(t, at, tenant, email, pre, still, u, raw);
    case InviteClient(at, tenant, client, found, email, u, raw) => InviteClientSound(t, at, tenant, client, found, email, u, raw);
    case ResendInvite(at, tenant, email, raw) => ResendSound(t, at, tenant, email, false, raw);
    case ResendClientInvite(at, tenant, email, raw) => ResendSound(t, at, tenant, email, true, raw);
    case Accept(at, link, password, clientActive, raw) => AcceptSound(t, at, link, password, clientActive, raw);
    case Remove(at, tenant, requester, target) => RemoveSound(t, at, tenant, requester, target);
  }

  lemma LogoutSound(s: State, at: int, presented: string)
    requires Inv(s) && at == s.clock
    ensures Sound(s, (Revoke(s, at, {presented}), Done)) && Sound(s, (s, Done))
  {
    RevokeSound(s, at, {presented});
    RevokeClock(s, at, {presented});
  }
}
