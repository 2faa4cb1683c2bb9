/**
 Platform connections and the encrypted tokens they hold: partial updates from several callers, and what
 getDecryptedTokens answers as a function of everything that happened before.
 */
module IntegrationTokens {
  import opened Options
  import opened Encryption

  datatype Key = Key(campaign: string, platform: string)

  datatype Status = Connected | Disconnected | HasExpired | Failed

  datatype Connection = Connection(
    tenant: string, status: Status, access: Option<string>, refresh: Option<string>,
    tokenExpiresAt: Option<int>, refreshExpiresAt: Option<int>, scopes: Option<string>, account: Option<string>,
    lastSyncAt: Option<int>, lastErrorAt: Option<int>, lastError: Option<string>)

  type Rows = map<Key, Connection>

  /** An absent token is an empty one: both are false where the code tests for a token. */
  datatype Event =
    | Upsert(tenant: string, key: Key, allowed: bool, withinLimits: bool, access: Bytes, refresh: Bytes, expires: Option<int>,
             refreshExpires: Option<int>, scopes: Option<string>, account: Option<string>, ivA: Bytes, ivR: Bytes)
    | StoreTokens(tenant: string, key: Key, access: Bytes, refresh: Bytes, expires: Option<int>, scopes: Option<string>,
                  account: Option<string>, ivA: Bytes, ivR: Bytes)
    | Disconnect(tenant: string, key: Key, allowed: bool)
    | MarkSynced(tenant: string, key: Key, at: int)
    | MarkExpired(tenant: string, key: Key, at: int, message: string)
    | MarkError(tenant: string, key: Key, at: int, message: string)

  function Or<T>(a: Option<T>, b: Option<T>): Option<T> { if a.Some? then a else b }

  function Sealing(c: Cipher, token: Bytes, iv: Bytes): Option<string> {
    if token == [] then None else Some(Encrypt(c, iv, token))
  }

  function NonEmpty(s: Option<string>): Option<string> { if s == Some("") then None else s }

  function Message(s: string): string { if |s| > 500 then s[..500] else s }

  /** The row after a call that is let through; None for a new row. */
  function UpsertRow(c: Cipher, e: Event, row: Option<Connection>): Connection
    requires e.Upsert?
  {
    var a, r := Sealing(c, e.access, e.ivA), Sealing(c, e.refresh, e.ivR);
    match row
    case None =>
      Connection(e.tenant, if e.access != [] then Connected else Disconnected, a, r, e.expires, e.refreshExpires,
                 e.scopes, e.account, None, None, None)
    case Some(prev) =>
      var u := prev.(access := Or(a, prev.access), refresh := Or(r, prev.refresh),
                    tokenExpiresAt := Or(e.expires, prev.tokenExpiresAt),
                    refreshExpiresAt := Or(e.refreshExpires, prev.refreshExpiresAt),
                    scopes := Or(e.scopes, prev.scopes), account := Or(e.account, prev.account));
      if e.access != [] then u.(status := Connected, lastErrorAt := None, lastError := None) else u
  }

  function StoreRow(c: Cipher, e: Event, row: Option<Connection>): Connection
    requires e.StoreTokens?
  {
    var a, r := Some(Encrypt(c, e.ivA, e.access)), Sealing(c, e.refresh, e.ivR);
    match row
    case None =>
      Connection(e.tenant, Connected, a, r, e.expires, None, NonEmpty(e.scopes), NonEmpty(e.account), None, None, None)
    case Some(prev) =>
      prev.(status := Connected, access := a, refresh := Or(r, prev.refresh),
           tokenExpiresAt := Or(e.expires, prev.tokenExpiresAt), scopes := Or(e.scopes, prev.scopes),
           account := Or(e.account, prev.account), lastErrorAt := None, lastError := None)
  }

  function Cleared(row: Connection): Connection {
    row.(status := Disconnected, access := None, refresh := None, tokenExpiresAt := None, refreshExpiresAt := None, scopes := None)
  }

  function MarkRow(e: Event, row: Connection): Connection
    requires e.MarkSynced? || e.MarkExpired? || e.MarkError?
  {
    match e
    case MarkSynced(_, _, at) => row.(lastSyncAt := Some(at), status := Connected, lastErrorAt := None, lastError := None)
    case MarkExpired(_, _, at, message) => row.(status := HasExpired, lastErrorAt := Some(at), lastError := Some(Message(message)))
    case MarkError(_, _, at, message) => row.(status := Failed, lastErrorAt := Some(at), lastError := Some(Message(message)))
  }

  /** Whether the call gets as far as writing, given whose row there is. */
  predicate Applies(e: Event, owner: Option<string>) {
    match e
    case Upsert(tenant, _, allowed, within, _, _, _, _, _, _, _, _) =>
      allowed && (if owner.Some? then owner.value == tenant else within)
    case StoreTokens(tenant, _, _, _, _, _, _, _, _) => owner.Some? ==> owner.value == tenant
    case Disconnect(tenant, _, allowed) => allowed && owner == Some(tenant)
    case MarkSynced(tenant, _, _) => owner == Some(tenant)
    case MarkExpired(tenant, _, _, _) => owner == Some(tenant)
    case MarkError(tenant, _, _, _) => owner == Some(tenant)
  }

  function RowAt(s: Rows, key: Key): Option<Connection> { if key in s then Some(s[key]) else None }

  function OwnerAt(s: Rows, key: Key): Option<string> { if key in s then Some(s[key].tenant) else None }

  function Step(c: Cipher, s: Rows, e: Event): Rows {
    if !Applies(e, OwnerAt(s, e.key)) then s else
    match e
    case Upsert(_, key, _, _, _, _, _, _, _, _, _, _) => s[key := UpsertRow(c, e, RowAt(s, key))]
    case StoreTokens(_, key, _, _, _, _, _, _, _) => s[key := StoreRow(c, e, RowAt(s, key))]
    case Disconnect(_, key, _) => s[key := Cleared(s[key])]
    case MarkSynced(_, key, _) => s[key := MarkRow(e, s[key])]
    case MarkExpired(_, key, _, _) => s[key := MarkRow(e, s[key])]
    case MarkError(_, key, _, _) => s[key := MarkRow(e, s[key])]
  }

  function Run(c: Cipher, es: seq<Event>): Rows {
    if es == [] then map[] else Step(c, Run(c, es[..|es| - 1]), es[|es| - 1])
  }

  // ---------- reading ----------

  datatype Tokens = Tokens(access: Option<Bytes>, refresh: Option<Bytes>, expiresAt: Option<int>, refreshExpiresAt: Option<int>)

  function DecryptStored(c: Cipher, stored: Option<string>): Result<Option<Bytes>, DecryptError> {
    if stored.None? || stored.value == "" then Ok(None)
    else match Decrypt(c, stored.value)
      case Ok(p) => Ok(Some(p))
      case Err(e) => Err(e)
  }

  function GetDecryptedTokens(c: Cipher, s: Rows, tenant: string, key: Key): Result<Option<Tokens>, DecryptError> {
    if key !in s || s[key].tenant != tenant then Ok(None)
    else match DecryptStored(c, s[key].access)
      case Err(e) => Err(e)
      case Ok(a) =>
        match DecryptStored(c, s[key].refresh)
        case Err(e) => Err(e)
        case Ok(r) => Ok(Some(Tokens(a, r, s[key].tokenExpiresAt, s[key].refreshExpiresAt)))
  }

  // ---------- what the history says ----------

  /** The tenant of the first call that created the row. */
  function Owner(es: seq<Event>, key: Key): Option<string> {
    if es == [] then None else
    var before, e := Owner(es[..|es| - 1], key), es[|es| - 1];
    if before.Some? then before
    else if e.key == key && Applies(e, None) then Some(e.tenant)
    else None
  }

  predicate IsLastOn(es: seq<Event>, key: Key)
    requires es != []
  {
    es[|es| - 1].key == key && Applies(es[|es| - 1], Owner(es[..|es| - 1], key))
  }

  /** The last non-empty refresh token supplied since the last disconnect. */
  function LastRefresh(es: seq<Event>, key: Key): Option<Bytes> {
    if es == [] then None else
    var e := es[|es| - 1];
    if IsLastOn(es, key) && e.Disconnect? then None
    else if IsLastOn(es, key) && (e.Upsert? || e.StoreTokens?) && e.refresh != [] then Some(e.refresh)
    else LastRefresh(es[..|es| - 1], key)
  }

  /** The last access token supplied since then: storeTokens supplies one even when it is empty. */
  function LastAccess(es: seq<Event>, key: Key): Option<Bytes> {
    if es == [] then None else
    var e := es[|es| - 1];
    if IsLastOn(es, key) && e.Disconnect? then None
    else if IsLastOn(es, key) && (e.StoreTokens? || (e.Upsert? && e.access != [])) then Some(e.access)
    else LastAccess(es[..|es| - 1], key)
  }

  function LastExpiry(es: seq<Event>, key: Key): Option<int> {
    if es == [] then None else
    var e := es[|es| - 1];
    if IsLastOn(es, key) && e.Disconnect? then None
    else if IsLastOn(es, key) && (e.Upsert? || e.StoreTokens?) && e.expires.Some? then e.expires
    else LastExpiry(es[..|es| - 1], key)
  }

  function LastRefreshExpiry(es: seq<Event>, key: Key): Option<int> {
    if es == [] then None else
    var e := es[|es| - 1];
    if IsLastOn(es, key) && e.Disconnect? then None
    else if IsLastOn(es, key) && e.Upsert? && e.refreshExpires.Some? then e.refreshExpires
    else LastRefreshExpiry(es[..|es| - 1], key)
  }

  ghost predicate Holds(c: Cipher, stored: Option<string>, token: Option<Bytes>) {
    DecryptStored(c, stored) == Ok(token)
  }

  ghost predicate Agrees(c: Cipher, s: Rows, es: seq<Event>, key: Key) {
    OwnerAt(s, key) == Owner(es, key)
    && (key in s ==>
          Holds(c, s[key].access, LastAccess(es, key)) && Holds(c, s[key].refresh, LastRefresh(es, key))
          && s[key].tokenExpiresAt == LastExpiry(es, key) && s[key].refreshExpiresAt == LastRefreshExpiry(es, key))
    && (key !in s ==> LastAccess(es, key) == LastRefresh(es, key) == None && LastExpiry(es, key) == LastRefreshExpiry(es, key) == None)
  }

  lemma EncryptionHolds(c: Cipher, iv: Bytes, token: Bytes)
    requires Opens(c)
    ensures Holds(c, Some(Encrypt(c, iv, token)), Some(token))
  {
    hide Encrypt, Decrypt;
    DecryptEncrypt(c, iv, token);
  }

  lemma NothingHolds(c: Cipher)
    ensures Holds(c, None, None)
  {
  }

  /** Writing a token that may be empty over one that is there. */
  lemma OverwriteHolds(c: Cipher, iv: Bytes, token: Bytes, prev: Option<string>, was: Option<Bytes>)
    requires Opens(c) && Holds(c, prev, was)
    ensures Holds(c, Or(Sealing(c, token, iv), prev), if token != [] then Some(token) else was)
  {
    hide Encrypt, Decrypt;
    if token != [] { DecryptEncrypt(c, iv, token); }
  }

  lemma {:induction false} RunAgrees(c: Cipher, es: seq<Event>, key: Key)
    requires Opens(c)
    ensures Agrees(c, Run(c, es), es, key)
  {
    hide Agrees;
    if es == [] {
      StartAgrees(c, key);
    } else {
      RunAgrees(c, es[..|es| - 1], key);
      StepAgrees(c, Run(c, es[..|es| - 1]), es, key);
    }
  }

  lemma StartAgrees(c: Cipher, key: Key)
    ensures Agrees(c, map[], [], key)
  {
  }

  lemma StepAgrees(c: Cipher, s: Rows, es: seq<Event>, key: Key)
    requires es != [] && Opens(c) && Agrees(c, s, es[..|es| - 1], key)
    ensures Agrees(c, Step(c, s, es[|es| - 1]), es, key)
  {
    hide Encrypt, Decrypt, Holds, Opens;
    var e := es[|es| - 1];
    NothingHolds(c);
    if e.key == key && Applies(e, OwnerAt(s, key)) {
      match e
      case Upsert(_, _, _, _, access, refresh, _, _, _, _, ivA, ivR) =>
        var row := RowAt(s, key);
        OverwriteHolds(c, ivA, access, if row.Some? then row.value.access else None, LastAccess(es[..|es| - 1], key));
        OverwriteHolds(c, ivR, refresh, if row.Some? then row.value.refresh else None, LastRefresh(es[..|es| - 1], key));
      case StoreTokens(_, _, access, refresh, _, _, _, ivA, ivR) =>
        var row := RowAt(s, key);
        EncryptionHolds(c, ivA, access);
        OverwriteHolds(c, ivR, refresh, if row.Some? then row.value.refresh else None, LastRefresh(es[..|es| - 1], key));
      case _ =>
    }
  }

  /**
   Over every run, getDecryptedTokens never fails, answers nothing to another tenant, and gives the owner
   the last tokens supplied since the last disconnect.
   */
  lemma TokensAreHistory(c: Cipher, es: seq<Event>, tenant: string, key: Key)
    requires Opens(c)
    ensures GetDecryptedTokens(c, Run(c, es), tenant, key) ==
            Ok(if Owner(es, key) != Some(tenant) then None
               else Some(Tokens(LastAccess(es, key), LastRefresh(es, key), LastExpiry(es, key), LastRefreshExpiry(es, key))))
  {
    hide Run, LastAccess, LastRefresh, LastExpiry, LastRefreshExpiry, Owner, DecryptStored;
    RunAgrees(c, es, key);
  }

  // ---------- what else a row shows ----------

  /** The time of the last sync that was recorded. */
  function LastSync(es: seq<Event>, key: Key): Option<int> {
    if es == [] then None else
    var e := es[|es| - 1];
    if IsLastOn(es, key) && e.MarkSynced? then Some(e.at) else LastSync(es[..|es| - 1], key)
  }

  /** The last call that says how the connection is: a new row without a token says it is not connected. */
  function LastStatus(es: seq<Event>, key: Key): Status {
    if es == [] then Disconnected else
    var before, e := LastStatus(es[..|es| - 1], key), es[|es| - 1];
    if !IsLastOn(es, key) then before else
    match e
    case Upsert(_, _, _, _, access, _, _, _, _, _, _, _) => if access != [] then Connected else before
    case StoreTokens(_, _, _, _, _, _, _, _, _) => Connected
    case Disconnect(_, _, _) => Disconnected
    case MarkSynced(_, _, _) => Connected
    case MarkExpired(_, _, _, _) => HasExpired
    case MarkError(_, _, _, _) => Failed
  }

  datatype Failure = Failure(at: int, message: string)

  /** The last failure since the connection last worked or got a token. */
  function LastFailure(es: seq<Event>, key: Key): Option<Failure> {
    if es == [] then None else
    var e := es[|es| - 1];
    if IsLastOn(es, key) && (e.MarkExpired? || e.MarkError?) then Some(Failure(e.at, e.message))
    else if IsLastOn(es, key) && (e.MarkSynced? || e.StoreTokens? || (e.Upsert? && e.access != [])) then None
    else LastFailure(es[..|es| - 1], key)
  }

  /** The account named last; storeTokens does not create a row with an empty name. */
  function LastAccount(es: seq<Event>, key: Key): Option<string> {
    if es == [] then None else
    var e := es[|es| - 1];
    if IsLastOn(es, key) && e.Upsert? && e.account.Some? then e.account
    else if IsLastOn(es, key) && e.StoreTokens? && e.account.Some? && (e.account != Some("") || Owner(es[..|es| - 1], key).Some?)
    then e.account
    else LastAccount(es[..|es| - 1], key)
  }

  /** The scopes named last since the last disconnect. */
  function LastScopes(es: seq<Event>, key: Key): Option<string> {
    if es == [] then None else
    var e := es[|es| - 1];
    if IsLastOn(es, key) && e.Disconnect? then None
    else if IsLastOn(es, key) && e.Upsert? && e.scopes.Some? then e.scopes
    else if IsLastOn(es, key) && e.StoreTokens? && e.scopes.Some? && (e.scopes != Some("") || Owner(es[..|es| - 1], key).Some?)
    then e.scopes
    else LastScopes(es[..|es| - 1], key)
  }

  /** At most the first 500 characters. */
  predicate IsCut(shown: string, message: string) {
    shown <= message && |shown| == if |message| > 500 then 500 else |message|
  }

  ghost predicate ShowsFailure(row: Connection, failure: Option<Failure>) {
    match failure
    case None => row.lastErrorAt == None && row.lastError == None
    case Some(f) => row.lastErrorAt == Some(f.at) && row.lastError.Some? && IsCut(row.lastError.value, f.message)
  }

  ghost predicate Shows(row: Connection, es: seq<Event>, key: Key) {
    row.lastSyncAt == LastSync(es, key) && row.status == LastStatus(es, key) && ShowsFailure(row, LastFailure(es, key))
    && row.account == LastAccount(es, key) && row.scopes == LastScopes(es, key)
  }

  ghost predicate ShownAt(s: Rows, es: seq<Event>, key: Key) {
    OwnerAt(s, key) == Owner(es, key)
    && if key in s then Shows(s[key], es, key)
       else LastSync(es, key) == None && LastStatus(es, key) == Disconnected && LastFailure(es, key) == None
            && LastAccount(es, key) == None && LastScopes(es, key) == None
  }

  lemma StepShows(c: Cipher, s: Rows, es: seq<Event>, key: Key)
    requires es != [] && ShownAt(s, es[..|es| - 1], key)
    ensures ShownAt(Step(c, s, es[|es| - 1]), es, key)
  {
    hide Encrypt;
  }

  /**
   Over every run a row shows the time of the last sync recorded, the status of the last call that says
   one, the last failure since it last worked, and the account and scopes named last.
   */
  lemma {:induction false} RowIsHistory(c: Cipher, es: seq<Event>, key: Key)
    ensures OwnerAt(Run(c, es), key) == Owner(es, key)
    ensures key in Run(c, es) ==> Shows(Run(c, es)[key], es, key)
    ensures ShownAt(Run(c, es), es, key)
  {
    hide ShownAt, Step;
    if es == [] {
      NothingShown(key);
    } else {
      RowIsHistory(c, es[..|es| - 1], key);
      StepShows(c, Run(c, es[..|es| - 1]), es, key);
    }
    ShownMeans(Run(c, es), es, key);
  }

  lemma NothingShown(key: Key)
    ensures ShownAt(map[], [], key)
  {
  }

  lemma ShownMeans(s: Rows, es: seq<Event>, key: Key)
    requires ShownAt(s, es, key)
    ensures OwnerAt(s, key) == Owner(es, key) && (key in s ==> Shows(s[key], es, key))
  {
  }

  // ---------- status ----------

  /** A connection shown as connected has an access token. */
  predicate ConnectedHasToken(s: Rows) { forall k :: k in s && s[k].status == Connected ==> s[k].access.Some? }

  /** A job that ends on a row without a token, for example after a disconnect. */
  predicate SyncsTokenless(s: Rows, e: Event) {
    e.MarkSynced? && e.key in s && s[e.key].tenant == e.tenant && s[e.key].access.None?
  }

  /** Every call keeps that, except exactly markSynced on a row without a token. */
  lemma StatusKept(c: Cipher, s: Rows, e: Event)
    requires ConnectedHasToken(s)
    ensures ConnectedHasToken(Step(c, s, e)) <==> !SyncsTokenless(s, e)
  {
    hide Encrypt;
    var t := Step(c, s, e);
    if SyncsTokenless(s, e) {
      assert t[e.key].status == Connected && t[e.key].access == s[e.key].access;
    }
  }

  ghost predicate AlwaysToken(c: Cipher, es: seq<Event>) { forall i :: 0 <= i <= |es| ==> ConnectedHasToken(Run(c, es[..i])) }

  ghost predicate NeverTokenless(c: Cipher, es: seq<Event>) {
    forall i :: 0 <= i < |es| ==> !SyncsTokenless(Run(c, es[..i]), es[i])
  }

  /** Over a run the status is right all along exactly when no job ends on a row without a token. */
  lemma {:induction false} StatusOverRuns(c: Cipher, es: seq<Event>)
    ensures AlwaysToken(c, es) <==> NeverTokenless(c, es)
  {
    hide Step, ConnectedHasToken, SyncsTokenless, Run;
    if es == [] {
      NoRows(c);
    } else {
      var n := |es| - 1;
      var before := es[..n];
      StatusOverRuns(c, before);
      assert forall i :: 0 <= i <= n ==> before[..i] == es[..i];
      assert forall i :: 0 <= i < n ==> before[i] == es[i];
      assert es[..n + 1] == es;
      LastStep(c, es);
      assert AlwaysToken(c, es) <==> AlwaysToken(c, before) && ConnectedHasToken(Run(c, es)) by { OnePrefixMore(c, es); }
      if ConnectedHasToken(Run(c, before)) {
        StatusKept(c, Run(c, before), es[n]);
      } else {
        assert before[..n] == before;
      }
    }
  }

  lemma NoRows(c: Cipher)
    ensures AlwaysToken(c, [])
  {
    forall i | 0 <= i <= 0 ensures ConnectedHasToken(Run(c, [][..i])) { NothingRun(c); }
  }

  lemma LastStep(c: Cipher, es: seq<Event>)
    requires es != []
    ensures Run(c, es) == Step(c, Run(c, es[..|es| - 1]), es[|es| - 1])
  {
    hide Step;
  }

  lemma OnePrefixMore(c: Cipher, es: seq<Event>)
    requires es != []
    ensures AlwaysToken(c, es) <==> AlwaysToken(c, es[..|es| - 1]) && ConnectedHasToken(Run(c, es))
  {
    hide ConnectedHasToken, Run;
    var n := |es| - 1;
    assert forall i :: 0 <= i <= n ==> es[..n][..i] == es[..i];
    assert es[..n + 1] == es;
    if AlwaysToken(c, es[..n]) {
      forall i | 0 <= i <= n ensures ConnectedHasToken(Run(c, es[..i])) { assert ConnectedHasToken(Run(c, es[..n][..i])); }
    }
    if AlwaysToken(c, es) {
      forall i | 0 <= i <= n ensures ConnectedHasToken(Run(c, es[..n][..i])) { assert ConnectedHasToken(Run(c, es[..i])); }
      assert ConnectedHasToken(Run(c, es[..n + 1]));
    }
  }

  /** Connect, disconnect, and let a sync that was on its way finish: shown as connected, without a token. */
  lemma TokenlessHappens(c: Cipher, key: Key, tenant: string, at: int)
    ensures var s := Run(c, [StoreTokens(tenant, key, [1], [], None, None, None, [], []), Disconnect(tenant, key, true), MarkSynced(tenant, key, at)]);
            key in s && s[key].status == Connected && GetDecryptedTokens(c, s, tenant, key) == Ok(Some(Tokens(None, None, None, None)))
  {
    hide Encrypt, Run;
    var a, b, d := StoreTokens(tenant, key, [1], [], None, None, None, [], []), Disconnect(tenant, key, true), MarkSynced(tenant, key, at);
    LastStep(c, [a, b, d]);
    assert [a, b, d][..2] == [a, b];
    LastStep(c, [a, b]);
    assert [a, b][..1] == [a];
    LastStep(c, [a]);
    assert [a][..0] == [];
    assert Run(c, []) == map[] by { NothingRun(c); }
  }

  lemma NothingRun(c: Cipher)
    ensures Run(c, []) == map[]
  {
  }

  // ---------- the service ----------

  datatype Error = NotFound | LimitReached | Rejected

  class Integrations {
    var rows: Rows
    const cipher: Cipher

    constructor (cipher: Cipher)
      ensures rows == map[] && this.cipher == cipher
    {
      rows := map[];
      this.cipher := cipher;
    }

    method UpsertConnection(e: Event) returns (r: Result<Connection, Error>)
      requires e.Upsert?
      modifies this
      ensures rows == Step(cipher, old(rows), e)
      ensures r.Ok? <==> e.allowed && if e.key in old(rows) then old(rows)[e.key].tenant == e.tenant else e.withinLimits
      ensures r == Err(LimitReached) <==> e.allowed && e.key !in old(rows) && !e.withinLimits
      ensures if r.Ok? then e.key in rows && rows == old(rows)[e.key := r.value] else rows == old(rows)
    {
      hide Encrypt;
      if !e.allowed {
        return Err(NotFound);
      }
      if e.key in rows && rows[e.key].tenant != e.tenant {
        return Err(NotFound);
      }
      if e.key !in rows && !e.withinLimits {
        return Err(LimitReached);
      }
      var accessEnc, refreshEnc := None, None;
      if e.access != [] {
        accessEnc := Some(Encrypt(cipher, e.ivA, e.access));
      }
      if e.refresh != [] {
        refreshEnc := Some(Encrypt(cipher, e.ivR, e.refresh));
      }
      var row;
      if e.key in rows {
        row := rows[e.key];
        if accessEnc.Some? { row := row.(access := accessEnc); }
        if refreshEnc.Some? { row := row.(refresh := refreshEnc); }
        if e.access != [] { row := row.(status := Connected, lastErrorAt := None, lastError := None); }
        if e.expires.Some? { row := row.(tokenExpiresAt := e.expires); }
        if e.refreshExpires.Some? { row := row.(refreshExpiresAt := e.refreshExpires); }
        if e.scopes.Some? { row := row.(scopes := e.scopes); }
        if e.account.Some? { row := row.(account := e.account); }
      } else {
        row := Connection(e.tenant, if e.access != [] then Connected else Disconnected, accessEnc, refreshEnc, e.expires,
                          e.refreshExpires, e.scopes, e.account, None, None, None);
      }
      rows := rows[e.key := row];
      return Ok(row);
    }

    method Store(e: Event) returns (r: Result<(), Error>)
      requires e.StoreTokens?
      modifies this
      ensures rows == Step(cipher, old(rows), e)
      ensures r.Ok? <==> e.key in old(rows) ==> old(rows)[e.key].tenant == e.tenant
      ensures if r.Ok? then e.key in rows && rows == old(rows)[e.key := rows[e.key]] else rows == old(rows)
    {
      hide Encrypt;
      var accessEnc := Some(Encrypt(cipher, e.ivA, e.access));
      var refreshEnc := None;
      if e.refresh != [] {
        refreshEnc := Some(Encrypt(cipher, e.ivR, e.refresh));
      }
      if e.key in rows && rows[e.key].tenant != e.tenant {
        return Err(Rejected);
      }
      var row;
      if e.key in rows {
        row := rows[e.key].(status := Connected, access := accessEnc, lastErrorAt := None, lastError := None);
        if refreshEnc.Some? { row := row.(refresh := refreshEnc); }
        if e.expires.Some? { row := row.(tokenExpiresAt := e.expires); }
        if e.scopes.Some? { row := row.(scopes := e.scopes); }
        if e.account.Some? { row := row.(account := e.account); }
      } else {
        row := Connection(e.tenant, Connected, accessEnc, refreshEnc, e.expires, None, NonEmpty(e.scopes),
                          NonEmpty(e.account), None, None, None);
      }
      rows := rows[e.key := row];
      return Ok(());
    }

    method DisconnectPlatform(tenant: string, key: Key, allowed: bool) returns (r: Result<(), Error>)
      modifies this
      ensures rows == Step(cipher, old(rows), Disconnect(tenant, key, allowed))
      ensures r.Ok? <==> allowed && key in old(rows) && old(rows)[key].tenant == tenant
      ensures if r.Ok? then key in rows && rows == old(rows)[key := rows[key]] else rows == old(rows)
    {
      if !allowed || key !in rows || rows[key].tenant != tenant {
        return Err(NotFound);
      }
      rows := rows[key := rows[key].(status := Disconnected, access := None, refresh := None, tokenExpiresAt := None,
                                     refreshExpiresAt := None, scopes := None)];
      return Ok(());
    }

    method Synced(tenant: string, key: Key, at: int)
      modifies this
      ensures rows == Step(cipher, old(rows), MarkSynced(tenant, key, at))
      ensures !(key in old(rows) && old(rows)[key].tenant == tenant) ==> rows == old(rows)
    {
      if key in rows && rows[key].tenant == tenant {
        rows := rows[key := rows[key].(lastSyncAt := Some(at), status := Connected, lastErrorAt := None, lastError := None)];
      }
    }

    method Expired(tenant: string, key: Key, at: int, message: string)
      modifies this
      ensures rows == Step(cipher, old(rows), MarkExpired(tenant, key, at, message))
      ensures !(key in old(rows) && old(rows)[key].tenant == tenant) ==> rows == old(rows)
    {
      if key in rows && rows[key].tenant == tenant {
        rows := rows[key := rows[key].(status := HasExpired, lastErrorAt := Some(at), lastError := Some(Message(message)))];
      }
    }

    method Errored(tenant: string, key: Key, at: int, message: string)
      modifies this
      ensures rows == Step(cipher, old(rows), MarkError(tenant, key, at, message))
      ensures !(key in old(rows) && old(rows)[key].tenant == tenant) ==> rows == old(rows)
    {
      if key in rows && rows[key].tenant == tenant {
        rows := rows[key := rows[key].(status := Failed, lastErrorAt := Some(at), lastError := Some(Message(message)))];
      }
    }

    /** A stored token that does not decrypt. */
    predicate Unreadable(stored: Option<string>) {
      stored.Some? && stored.value != "" && Decrypt(cipher, stored.value).Err?
    }

    method DecryptedTokens(tenant: string, key: Key) returns (r: Result<Option<Tokens>, DecryptError>)
      ensures r == GetDecryptedTokens(cipher, rows, tenant, key)
      ensures r == Ok(None) <==> !(key in rows && rows[key].tenant == tenant)
      ensures r.Err? <==> key in rows && rows[key].tenant == tenant && (Unreadable(rows[key].access) || Unreadable(rows[key].refresh))
    {
      hide Decrypt;
      if key !in rows || rows[key].tenant != tenant {
        return Ok(None);
      }
      var row := rows[key];
      var access, refresh := None, None;
      if row.access.Some? && row.access.value != "" {
        match Decrypt(cipher, row.access.value) {
          case Ok(p) => access := Some(p);
          case Err(e) => return Err(e);
        }
      }
      if row.refresh.Some? && row.refresh.value != "" {
        match Decrypt(cipher, row.refresh.value) {
          case Ok(p) => refresh := Some(p);
          case Err(e) => return Err(e);
        }
      }
      return Ok(Some(Tokens(access, refresh, row.tokenExpiresAt, row.refreshExpiresAt)));
    }
  }
}
