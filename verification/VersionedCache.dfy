/**
 The versioned metrics cache under interleaving. Readers and writers advance one awaited statement at
 a time, in any order, over the metric tables, the version counters and the cached answers.

 Log, Entry and the phases carry history (which table state an answer was computed on); no step lets
 that history decide what happens.
 */
module VersionedCache {
  import opened Options
  import opened Text
  import opened Calendar
  import opened Metrics
  import opened CacheKeys

  /**
   All states the table of one scope went through, the last one current. bumps[v] is the index of the
   state that was current when the counter became v; settled is the newest state committed by an
   upsert that has returned; torn says that an upsert stopped between a commit and its increment.
   */
  datatype RawLog = Log(states: seq<Table>, bumps: seq<nat>, settled: nat, torn: bool)

  type Log = l: RawLog | |l.states| > 0 && |l.bumps| > 0 witness Log([[]], [0], 0, false)

  datatype Entry = Entry(answer: Answer, req: Request, version: nat, at: nat)

  datatype Reader =
    | Started(req: Request, floor: nat)
    | Versioned(req: Request, floor: nat, version: nat)
    | Missed(req: Request, floor: nat, version: nat)
    | Fetched(req: Request, floor: nat, version: nat, answer: Answer, at: nat)
    | Finished(req: Request, floor: nat, answer: Answer, at: nat)

  /** An upsertMetrics call: the rows still to write and the last state it committed. */
  datatype Writer = Writer(scope: Scope, rows: seq<RowInput>, committed: Option<nat>)

  datatype Sys = Sys(logs: map<Scope, Log>, versions: map<string, nat>, entries: map<string, Entry>,
                     readers: map<nat, Reader>, writers: map<nat, Writer>)

  const INITIAL := Sys(map[], map[], map[], map[], map[])

  function LogOf(s: Sys, scope: Scope): Log {
    if scope in s.logs then s.logs[scope] else Log([[]], [0], 0, false)
  }

  function GetVersion(s: Sys, scope: Scope): nat {
    var key := BuildVersionKey(scope);
    if key in s.versions then s.versions[key] else 0
  }

  datatype Event =
    | StartRead(reader: nat, req: Request)
    | ReadVersion(reader: nat)
    | LookUp(reader: nat)
    | Fetch(reader: nat)
    | Store(reader: nat)
    | StartWrite(writer: nat, scope: Scope, rows: seq<RowInput>)
    | CommitBatch(writer: nat)
    | Crash(writer: nat)
    | Increment(writer: nat)
    | Expire(key: string)

  function Last<T>(s: seq<T>): T
    requires s != []
  {
    s[|s| - 1]
  }

  ghost predicate LogOk(l: Log) {
    l.settled <= Last(l.bumps) < |l.states| &&
    (forall i, j :: 0 <= i <= j < |l.bumps| ==> l.bumps[i] <= l.bumps[j])
  }

  /** An answer computed on state `at` of a log that was current no earlier than `floor`. */
  ghost predicate FreshSince(l: Log, floor: nat, req: Request, answer: Answer, at: nat) {
    Clean(req) && floor <= at < |l.states| && answer == AnswerFor(l.states[at], req)
  }

  /** Some call of the run asks q. Calls stay in `readers` when they have finished. */
  ghost predicate Asked(s: Sys, q: Request) { exists id :: id in s.readers && s.readers[id].req == q }

  /** The answer to a question asked in the run under the key of req. */
  ghost predicate Served(s: Sys, l: Log, floor: nat, req: Request, answer: Answer, at: nat) {
    exists q :: Asked(s, q) && SharesKey(q, req) && FreshSince(l, floor, q, answer, at)
  }

  ghost predicate ReaderOk(s: Sys, r: Reader) {
    Clean(r.req) &&
    var l := LogOf(s, r.req.scope);
    match r
    case Started(_, floor) => floor <= l.settled
    case Versioned(_, floor, v) => v < |l.bumps| && floor <= l.bumps[v]
    case Missed(_, floor, v) => v < |l.bumps| && floor <= l.bumps[v]
    case Fetched(req, floor, v, answer, at) =>
      v < |l.bumps| && floor <= l.bumps[v] && FreshSince(l, l.bumps[v], req, answer, at)
    case Finished(req, floor, answer, at) => Served(s, l, floor, req, answer, at)
  }

  ghost predicate EntryOk(s: Sys, key: string, e: Entry) {
    var l := LogOf(s, e.req.scope);
    Clean(e.req) && Asked(s, e.req) && key == BuildCacheKey(e.version, e.req) && e.version < |l.bumps| &&
    FreshSince(l, l.bumps[e.version], e.req, e.answer, e.at)
  }

  ghost predicate WriterOk(s: Sys, w: Writer) {
    CleanScope(w.scope) && (w.committed.Some? ==> w.committed.value < |LogOf(s, w.scope).states|)
  }

  /** A commit not yet followed by an increment belongs to a writer still running, or is torn. */
  ghost predicate Accounted(s: Sys, scope: Scope) {
    var l := LogOf(s, scope);
    Last(l.bumps) < |l.states| - 1 ==>
      l.torn || exists id :: id in s.writers && s.writers[id].scope == scope &&
                             s.writers[id].committed == Some(|l.states| - 1)
  }

  ghost predicate VersionOk(s: Sys, scope: Scope) {
    CleanScope(scope) ==> GetVersion(s, scope) == |LogOf(s, scope).bumps| - 1
  }

  ghost predicate Inv(s: Sys) {
    (forall scope :: LogOk(LogOf(s, scope)) && Accounted(s, scope) && VersionOk(s, scope)) &&
    (forall id :: id in s.readers ==> ReaderOk(s, s.readers[id])) &&
    (forall key :: key in s.entries ==> EntryOk(s, key, s.entries[key])) &&
    (forall id :: id in s.writers ==> WriterOk(s, s.writers[id]))
  }

  // ---------- the steps of a reader: getMetrics and getMetricSummary ----------

  function Current(s: Sys, scope: Scope): Table { Last(LogOf(s, scope).states) }

  /** getOrSet does not keep an empty array. */
  predicate IsEmpty(a: Answer) { a.Series? && a.rows == [] }

  function WithReader(s: Sys, id: nat, r: Reader): Sys { s.(readers := s.readers[id := r]) }

  function DoStartRead(s: Sys, id: nat, req: Request): Sys {
    if id in s.readers || !Clean(req) then s
    else WithReader(s, id, Started(req, LogOf(s, req.scope).settled))
  }

  function DoReadVersion(s: Sys, id: nat): Sys {
    if id in s.readers && s.readers[id].Started? then
      var r := s.readers[id];
      WithReader(s, id, Versioned(r.req, r.floor, GetVersion(s, r.req.scope)))
    else s
  }

  function DoLookUp(s: Sys, id: nat): Sys {
    if id in s.readers && s.readers[id].Versioned? then
      var r := s.readers[id];
      var key := BuildCacheKey(r.version, r.req);
      if key in s.entries then WithReader(s, id, Finished(r.req, r.floor, s.entries[key].answer, s.entries[key].at))
      else WithReader(s, id, Missed(r.req, r.floor, r.version))
    else s
  }

  function DoFetch(s: Sys, id: nat): Sys {
    if id in s.readers && s.readers[id].Missed? && Clean(s.readers[id].req) then
      var r := s.readers[id];
      WithReader(s, id, Fetched(r.req, r.floor, r.version, AnswerFor(Current(s, r.req.scope), r.req),
                                |LogOf(s, r.req.scope).states| - 1))
    else s
  }

  function DoStore(s: Sys, id: nat): Sys {
    if id in s.readers && s.readers[id].Fetched? then
      var r := s.readers[id];
      var t := WithReader(s, id, Finished(r.req, r.floor, r.answer, r.at));
      if IsEmpty(r.answer) then t
      else t.(entries := t.entries[BuildCacheKey(r.version, r.req) := Entry(r.answer, r.req, r.version, r.at)])
    else s
  }

  // ---------- the steps of a writer: upsertMetrics ----------

  function WithLog(s: Sys, scope: Scope, l: Log): Sys { s.(logs := s.logs[scope := l]) }

  function DoStartWrite(s: Sys, id: nat, scope: Scope, rows: seq<RowInput>): Sys {
    if id in s.writers || rows == [] || !CleanScope(scope) then s
    else s.(writers := s.writers[id := Writer(scope, rows, None)])
  }

  /** The call ends without its increment, because a batch was rejected or the process stopped. */
  function DoCrash(s: Sys, id: nat): Sys {
    if id in s.writers then
      var w := s.writers[id];
      var l := LogOf(s, w.scope);
      var torn := l.torn || (w.committed.Some? && w.committed.value > Last(l.bumps));
      WithLog(s, w.scope, l.(torn := torn)).(writers := s.writers - {id})
    else s
  }

  function DoCommit(s: Sys, id: nat, norm: string -> Normalizer): Sys {
    if id in s.writers && s.writers[id].rows != [] then
      var w := s.writers[id];
      var l := LogOf(s, w.scope);
      var b := Batch(w.rows);
      if !Fits(norm(w.scope.platform), b) then DoCrash(s, id)
      else
        var t := UpsertAll(Last(l.states), RowsOf(norm(w.scope.platform), b));
        WithLog(s, w.scope, l.(states := l.states + [t]))
          .(writers := s.writers[id := w.(rows := w.rows[|b|..], committed := Some(|l.states|))])
    else s
  }

  function Max(a: nat, b: nat): nat { if a < b then b else a }

  function DoIncrement(s: Sys, id: nat): Sys {
    if id in s.writers && s.writers[id].rows == [] then
      var w := s.writers[id];
      var l := LogOf(s, w.scope);
      var newest: nat := |l.states| - 1;
      WithLog(s, w.scope, l.(bumps := l.bumps + [newest], settled := Max(l.settled, w.committed.GetOr(0)), torn := false))
        .(versions := s.versions[BuildVersionKey(w.scope) := GetVersion(s, w.scope) + 1],
          writers := s.writers - {id})
    else s
  }

  function Step(s: Sys, e: Event, norm: string -> Normalizer): Sys {
    match e
    case StartRead(id, req) => DoStartRead(s, id, req)
    case ReadVersion(id) => DoReadVersion(s, id)
    case LookUp(id) => DoLookUp(s, id)
    case Fetch(id) => DoFetch(s, id)
    case Store(id) => DoStore(s, id)
    case StartWrite(id, scope, rows) => DoStartWrite(s, id, scope, rows)
    case CommitBatch(id) => DoCommit(s, id, norm)
    case Crash(id) => DoCrash(s, id)
    case Increment(id) => DoIncrement(s, id)
    case Expire(key) => s.(entries := s.entries - {key})
  }

  /** Redis and the database after a sequence of steps of any number of calls. */
  function Run(s: Sys, es: seq<Event>, norm: string -> Normalizer): Sys
    decreases |es|
  {
    if es == [] then s else Run(Step(s, es[0], norm), es[1..], norm)
  }

  // ---------- the invariant ----------

  lemma InitialOk()
    ensures Inv(INITIAL)
  {
    forall scope ensures LogOf(INITIAL, scope) == Log([[]], [0], 0, false) {}
  }

  /** The log only grows: old states, old bumps and the settled mark stay. */
  ghost predicate Grows(l: Log, m: Log) {
    l.states <= m.states && l.bumps <= m.bumps && l.settled <= m.settled
  }

  /** Calls are added, and each keeps its request. */
  ghost predicate SameAsked(s: Sys, t: Sys) {
    forall id :: id in s.readers ==> id in t.readers && t.readers[id].req == s.readers[id].req
  }

  lemma HistoryStays(s: Sys, t: Sys)
    requires forall scope :: Grows(LogOf(s, scope), LogOf(t, scope))
    requires SameAsked(s, t)
    ensures forall r :: ReaderOk(s, r) ==> ReaderOk(t, r)
    ensures forall key, e :: EntryOk(s, key, e) ==> EntryOk(t, key, e)
    ensures forall w :: WriterOk(s, w) ==> WriterOk(t, w)
  {
    hide Clean, AnswerFor, BuildCacheKey, LogOf;
    AskedStays(s, t);
  }

  lemma AskedStays(s: Sys, t: Sys)
    requires SameAsked(s, t)
    ensures forall q :: Asked(s, q) ==> Asked(t, q)
  {
    forall q | Asked(s, q) ensures Asked(t, q) {
      var id :| id in s.readers && s.readers[id].req == q;
      assert id in t.readers && t.readers[id].req == q;
    }
  }

  lemma SharedFields(a: Request, b: Request)
    requires SharesKey(a, b)
    ensures a.scope == b.scope && a.from == b.from && a.to == b.to && (Clean(a) <==> Clean(b)) && SharesKey(b, a)
  {
    hide CleanScope, KeyPieces, ParseDate, YearOf;
  }

  /** An entry found under a key answers a question asked under that key. */
  lemma HitIsFresh(s: Sys, req: Request, v: nat)
    requires Inv(s) && Clean(req) && BuildCacheKey(v, req) in s.entries
    ensures var l := LogOf(s, req.scope); var e := s.entries[BuildCacheKey(v, req)];
            v < |l.bumps| && Served(s, l, l.bumps[v], req, e.answer, e.at)
  {
    hide Clean, AnswerFor, BuildCacheKey, LogOf, SharesKey;
    var e := s.entries[BuildCacheKey(v, req)];
    assert EntryOk(s, BuildCacheKey(v, req), e);
    CacheKeyExact(v, req, e.version, e.req);
    SharedFields(req, e.req);
  }

  /** Readers and entries may change as long as each stays right; tables and counters stay. */
  lemma ReadersStepOk(s: Sys, t: Sys)
    requires Inv(s) && t.logs == s.logs && t.versions == s.versions && t.writers == s.writers && SameAsked(s, t)
    requires forall id :: id in t.readers ==> (id in s.readers && t.readers[id] == s.readers[id]) || ReaderOk(s, t.readers[id])
    requires forall key :: key in t.entries ==>
               (key in s.entries && t.entries[key] == s.entries[key]) || EntryOk(s, key, t.entries[key])
    ensures Inv(t)
  {
    hide LogOf, ReaderOk, EntryOk, WriterOk, LogOk, Accounted, VersionOk, SameAsked;
    SameScopes(s, t);
    HistoryStays(s, t);
    forall scope ensures LogOk(LogOf(t, scope)) && Accounted(t, scope) && VersionOk(t, scope) {
      assert LogOk(LogOf(s, scope)) && Accounted(s, scope) && VersionOk(s, scope);
      ScopeStaysOk(s, t, scope);
    }
  }

  lemma ScopeStaysOk(s: Sys, t: Sys, scope: Scope)
    requires t.logs == s.logs && t.versions == s.versions && t.writers == s.writers
    requires Accounted(s, scope) && VersionOk(s, scope)
    ensures Accounted(t, scope) && VersionOk(t, scope) && LogOf(t, scope) == LogOf(s, scope)
  {
    hide CleanScope, BuildVersionKey;
  }

  lemma CleanRequestScope(r: Request)
    requires Clean(r)
    ensures CleanScope(r.scope) && IsDate(r.from) && IsDate(r.to)
  {
  }

  lemma WriterIsOk(s: Sys, id: nat)
    requires Inv(s) && id in s.writers
    ensures WriterOk(s, s.writers[id])
  {
  }

  lemma ReaderIsOk(s: Sys, id: nat)
    requires Inv(s) && id in s.readers
    ensures ReaderOk(s, s.readers[id])
  {
  }

  lemma ScopeIsOk(s: Sys, scope: Scope)
    requires Inv(s)
    ensures LogOk(LogOf(s, scope)) && Accounted(s, scope) && VersionOk(s, scope)
  {
  }

  /** A call moves to its next phase. */
  lemma ReaderMoves(s: Sys, id: nat, r: Reader)
    requires Inv(s) && ReaderOk(s, r) && (id in s.readers ==> r.req == s.readers[id].req)
    ensures Inv(WithReader(s, id, r))
  {
    hide Inv, ReaderOk, EntryOk;
    ReadersStepOk(s, WithReader(s, id, r));
  }

  lemma EntryStored(s: Sys, key: string, e: Entry)
    requires Inv(s) && EntryOk(s, key, e)
    ensures Inv(s.(entries := s.entries[key := e]))
  {
    hide Inv, ReaderOk, EntryOk;
    ReadersStepOk(s, s.(entries := s.entries[key := e]));
  }

  lemma StartReadOk(s: Sys, id: nat, req: Request)
    requires Inv(s)
    ensures Inv(DoStartRead(s, id, req))
  {
    hide Inv, Clean, LogOf, Served;
    if id !in s.readers && Clean(req) { ReaderMoves(s, id, Started(req, LogOf(s, req.scope).settled)); }
  }

  lemma ReadVersionOk(s: Sys, id: nat)
    requires Inv(s)
    ensures Inv(DoReadVersion(s, id))
  {
    hide Inv, GetVersion, Clean, LogOf, Accounted, Served;
    if id in s.readers && s.readers[id].Started? {
      var r := s.readers[id];
      ReaderIsOk(s, id);
      ScopeIsOk(s, r.req.scope);
      CleanRequestScope(r.req);
      ReaderMoves(s, id, Versioned(r.req, r.floor, GetVersion(s, r.req.scope)));
    }
  }

  lemma LookUpOk(s: Sys, id: nat)
    requires Inv(s)
    ensures Inv(DoLookUp(s, id))
  {
    hide Inv, BuildCacheKey, Clean, LogOf, Served, FreshSince;
    if id in s.readers && s.readers[id].Versioned? {
      var r := s.readers[id];
      var key := BuildCacheKey(r.version, r.req);
      var l := LogOf(s, r.req.scope);
      ReaderIsOk(s, id);
      if key in s.entries {
        HitIsFresh(s, r.req, r.version);
        ServedSince(s, l, l.bumps[r.version], r.floor, r.req, s.entries[key].answer, s.entries[key].at);
        ReaderMoves(s, id, Finished(r.req, r.floor, s.entries[key].answer, s.entries[key].at));
      } else {
        ReaderMoves(s, id, Missed(r.req, r.floor, r.version));
      }
    }
  }

  lemma ServedSince(s: Sys, l: Log, floor: nat, earlier: nat, req: Request, answer: Answer, at: nat)
    requires Served(s, l, floor, req, answer, at) && earlier <= floor
    ensures Served(s, l, earlier, req, answer, at)
  {
    hide Clean, AnswerFor, SharesKey, Asked;
  }

  lemma FetchOk(s: Sys, id: nat)
    requires Inv(s)
    ensures Inv(DoFetch(s, id))
  {
    hide Inv, Clean, LogOf, Served, AnswerFor, Accounted, VersionOk, LogOk, ParseDate, YearOf;
    if id in s.readers && s.readers[id].Missed? && Clean(s.readers[id].req) {
      var r := s.readers[id];
      ReaderIsOk(s, id);
      ScopeIsOk(s, r.req.scope);
      CleanRequestScope(r.req);
      var l := LogOf(s, r.req.scope);
      BumpInLog(l, r.version);
      FetchedIsOk(s, r);
      ReaderMoves(s, id, Fetched(r.req, r.floor, r.version, AnswerFor(Current(s, r.req.scope), r.req), |l.states| - 1));
    }
  }

  lemma FetchedIsOk(s: Sys, r: Reader)
    requires r.Missed? && ReaderOk(s, r) && LogOf(s, r.req.scope).bumps[r.version] < |LogOf(s, r.req.scope).states|
    ensures ReaderOk(s, Fetched(r.req, r.floor, r.version, AnswerFor(Current(s, r.req.scope), r.req), |LogOf(s, r.req.scope).states| - 1))
  {
    hide LogOf, AnswerFor, ParseDate, YearOf, CleanScope;
  }

  lemma BumpInLog(l: Log, v: nat)
    requires LogOk(l) && v < |l.bumps|
    ensures l.bumps[v] < |l.states|
  {
  }

  lemma FetchedIsEntry(s: Sys, id: nat)
    requires id in s.readers && s.readers[id].Fetched? && ReaderOk(s, s.readers[id])
    ensures var r := s.readers[id];
            ReaderOk(s, Finished(r.req, r.floor, r.answer, r.at)) &&
            EntryOk(s, BuildCacheKey(r.version, r.req), Entry(r.answer, r.req, r.version, r.at))
  {
    hide AnswerFor, BuildCacheKey, Clean, LogOf, KeyPieces;
    var r := s.readers[id];
    assert Asked(s, r.req) && SharesKey(r.req, r.req);
  }

  lemma StoreOk(s: Sys, id: nat)
    requires Inv(s)
    ensures Inv(DoStore(s, id))
  {
    hide Inv, BuildCacheKey, IsEmpty, ReaderOk, EntryOk;
    if id in s.readers && s.readers[id].Fetched? {
      var r := s.readers[id];
      ReaderIsOk(s, id);
      FetchedIsEntry(s, id);
      EntryStored(s, BuildCacheKey(r.version, r.req), Entry(r.answer, r.req, r.version, r.at));
      var u := s.(entries := s.entries[BuildCacheKey(r.version, r.req) := Entry(r.answer, r.req, r.version, r.at)]);
      FinishedElsewhere(s, u, Finished(r.req, r.floor, r.answer, r.at));
      ReaderMoves(s, id, Finished(r.req, r.floor, r.answer, r.at));
      ReaderMoves(u, id, Finished(r.req, r.floor, r.answer, r.at));
    }
  }

  lemma FinishedElsewhere(s: Sys, u: Sys, r: Reader)
    requires ReaderOk(s, r) && u.readers == s.readers && u.logs == s.logs
    ensures ReaderOk(u, r)
  {
    hide AnswerFor, BuildCacheKey, Clean;
    assert forall q :: Asked(u, q) <==> Asked(s, q);
  }

  /** One log grows and its scope stays in order; everything about other scopes stays. */
  lemma WriterStepOk(s: Sys, t: Sys, scope: Scope)
    requires Inv(s) && t.readers == s.readers && t.entries == s.entries
    requires Grows(LogOf(s, scope), LogOf(t, scope))
    requires LogOk(LogOf(t, scope)) && Accounted(t, scope) && VersionOk(t, scope)
    requires forall other :: other != scope ==> LogOf(t, other) == LogOf(s, other)
    requires forall other :: other != scope && CleanScope(other) ==> GetVersion(t, other) == GetVersion(s, other)
    requires forall id :: id in s.writers && s.writers[id].scope != scope ==> id in t.writers && t.writers[id] == s.writers[id]
    requires forall id :: id in t.writers ==> (id in s.writers && t.writers[id] == s.writers[id]) || WriterOk(t, t.writers[id])
    ensures Inv(t)
  {
    hide Clean, AnswerFor, BuildCacheKey, GetVersion, LogOf, CleanScope;
    HistoryStays(s, t);
    forall other ensures LogOk(LogOf(t, other)) && Accounted(t, other) && VersionOk(t, other) {
      assert LogOk(LogOf(s, other)) && Accounted(s, other) && VersionOk(s, other);
    }
  }

  /** Only writer id changed: the newest commit keeps its owner, or the log was marked torn. */
  lemma StillAccounted(s: Sys, t: Sys, scope: Scope, id: nat)
    requires Accounted(s, scope)
    requires var l, m := LogOf(s, scope), LogOf(t, scope);
             m.states == l.states && m.bumps == l.bumps && (l.torn ==> m.torn) &&
             (id in s.writers && s.writers[id].committed == Some(|l.states| - 1) && Last(l.bumps) < |l.states| - 1 ==>
                m.torn || (id in t.writers && t.writers[id] == s.writers[id]))
    requires forall w :: w in s.writers && w != id ==> w in t.writers && t.writers[w] == s.writers[w]
    ensures Accounted(t, scope)
  {
    hide LogOf;
    var l := LogOf(s, scope);
    if Last(l.bumps) < |l.states| - 1 && !LogOf(t, scope).torn {
      var w :| w in s.writers && s.writers[w].scope == scope && s.writers[w].committed == Some(|l.states| - 1);
      assert w in t.writers && t.writers[w] == s.writers[w];
    }
  }

  lemma SameScopes(s: Sys, t: Sys)
    requires t.logs == s.logs && t.versions == s.versions
    ensures forall scope :: LogOf(t, scope) == LogOf(s, scope) && GetVersion(t, scope) == GetVersion(s, scope)
  {
  }

  lemma SameVersionOk(s: Sys, t: Sys, scope: Scope)
    requires VersionOk(s, scope) && LogOf(t, scope) == LogOf(s, scope) && GetVersion(t, scope) == GetVersion(s, scope)
    ensures VersionOk(t, scope)
  {
  }

  lemma StartWriteOk(s: Sys, id: nat, scope: Scope, rows: seq<RowInput>)
    requires Inv(s)
    ensures Inv(DoStartWrite(s, id, scope, rows))
  {
    hide Inv, CleanScope, LogOf, GetVersion, Accounted, VersionOk, LogOk;
    var t := DoStartWrite(s, id, scope, rows);
    SameLogs(s, t, scope);
    SameScopes(s, t);
    ScopeIsOk(s, scope);
    StillAccounted(s, t, scope, id);
    SameVersionOk(s, t, scope);
    WriterStepOk(s, t, scope);
  }

  lemma CrashOk(s: Sys, id: nat)
    requires Inv(s)
    ensures Inv(DoCrash(s, id))
  {
    hide Inv, BuildVersionKey, CleanScope, Accounted;
    if id in s.writers {
      var scope := s.writers[id].scope;
      ScopeIsOk(s, scope);
      StillAccounted(s, DoCrash(s, id), scope, id);
      WriterStepOk(s, DoCrash(s, id), scope);
    }
  }

  lemma CommitOk(s: Sys, id: nat, norm: string -> Normalizer)
    requires Inv(s)
    ensures Inv(DoCommit(s, id, norm))
  {
    hide Inv, BuildVersionKey, CleanScope, Fits, RowsOf, UpsertAll, Batch;
    if id in s.writers && s.writers[id].rows != [] {
      var w := s.writers[id];
      if Fits(norm(w.scope.platform), Batch(w.rows)) {
        ScopeIsOk(s, w.scope);
        WriterIsOk(s, id);
        var t := DoCommit(s, id, norm);
        assert t.writers[id].committed == Some(|LogOf(t, w.scope).states| - 1);
        WriterStepOk(s, t, w.scope);
      } else {
        CrashOk(s, id);
      }
    }
  }

  lemma OtherVersions(s: Sys, scope: Scope, other: Scope, v: nat)
    requires CleanScope(scope) && CleanScope(other) && other != scope
    ensures GetVersion(s.(versions := s.versions[BuildVersionKey(scope) := v]), other) == GetVersion(s, other)
  {
    if BuildVersionKey(scope) == BuildVersionKey(other) { VersionKeyInjective(scope, other); }
  }

  lemma IncrementOk(s: Sys, id: nat)
    requires Inv(s)
    ensures Inv(DoIncrement(s, id))
  {
    hide Inv, BuildVersionKey, CleanScope;
    if id in s.writers && s.writers[id].rows == [] {
      var w := s.writers[id];
      var t := DoIncrement(s, id);
      ScopeIsOk(s, w.scope);
      WriterIsOk(s, id);
      forall other | other != w.scope && CleanScope(other) ensures GetVersion(t, other) == GetVersion(s, other) {
        OtherVersions(s, w.scope, other, GetVersion(s, w.scope) + 1);
      }
      WriterStepOk(s, t, w.scope);
    }
  }

  lemma StepOk(s: Sys, e: Event, norm: string -> Normalizer)
    requires Inv(s)
    ensures Inv(Step(s, e, norm))
  {
    hide Inv, DoStartRead, DoReadVersion, DoLookUp, DoFetch, DoStore, DoStartWrite, DoCommit, DoCrash, DoIncrement;
    match e
    case StartRead(id, req) => StartReadOk(s, id, req);
    case ReadVersion(id) => ReadVersionOk(s, id);
    case LookUp(id) => LookUpOk(s, id);
    case Fetch(id) => FetchOk(s, id);
    case Store(id) => StoreOk(s, id);
    case StartWrite(id, scope, rows) => StartWriteOk(s, id, scope, rows);
    case CommitBatch(id) => CommitOk(s, id, norm);
    case Crash(id) => CrashOk(s, id);
    case Increment(id) => IncrementOk(s, id);
    case Expire(key) => ExpireOk(s, key);
  }

  lemma ExpireOk(s: Sys, key: string)
    requires Inv(s)
    ensures Inv(s.(entries := s.entries - {key}))
  {
    ReadersStepOk(s, s.(entries := s.entries - {key}));
  }

  lemma {:induction false} RunOk(s: Sys, es: seq<Event>, norm: string -> Normalizer)
    requires Inv(s)
    ensures Inv(Run(s, es, norm))
    decreases |es|
  {
    hide Inv, Step;
    if es != [] {
      StepOk(s, es[0], norm);
      RunOk(Step(s, es[0], norm), es[1..], norm);
    }
  }

  /** Empty arrays are never kept. */
  ghost predicate NoneEmpty(s: Sys) { forall key :: key in s.entries ==> s.entries[key].answer != Series([]) }

  lemma NoneEmptyStep(s: Sys, e: Event, norm: string -> Normalizer)
    requires NoneEmpty(s)
    ensures NoneEmpty(Step(s, e, norm))
  {
    hide AnswerFor, BuildCacheKey, Clean, LogOf, GetVersion, DoCommit, DoIncrement, DoCrash, DoStartWrite;
    if e.CommitBatch? || e.Increment? || e.Crash? || e.StartWrite? { EntriesStay(s, e, norm); }
  }

  lemma EntriesStay(s: Sys, e: Event, norm: string -> Normalizer)
    requires e.CommitBatch? || e.Increment? || e.Crash? || e.StartWrite?
    ensures Step(s, e, norm).entries == s.entries
  {
    hide BuildVersionKey, Fits, RowsOf, UpsertAll, CleanScope, Batch, LogOf, GetVersion;
  }

  lemma {:induction false} NothingEmptyKept(s: Sys, es: seq<Event>, norm: string -> Normalizer)
    requires NoneEmpty(s)
    ensures NoneEmpty(Run(s, es, norm))
    decreases |es|
  {
    hide Step, NoneEmpty;
    if es != [] {
      NoneEmptyStep(s, es[0], norm);
      NothingEmptyKept(Step(s, es[0], norm), es[1..], norm);
    }
  }

  // ---------- what readers get ----------

  lemma StepGrows(s: Sys, e: Event, norm: string -> Normalizer, scope: Scope)
    ensures Grows(LogOf(s, scope), LogOf(Step(s, e, norm), scope))
  {
    hide LogOf, DoStartRead, DoReadVersion, DoLookUp, DoFetch, DoStore, DoCommit, DoIncrement, DoCrash, DoStartWrite;
    match e
    case CommitBatch(id) => CommitGrows(s, id, norm, scope);
    case Increment(id) => IncrementGrows(s, id, scope);
    case Crash(id) => CrashGrows(s, id, scope);
    case _ => LogsStay(s, e, norm); SameLogs(s, Step(s, e, norm), scope);
  }

  lemma SameLogs(s: Sys, t: Sys, scope: Scope)
    requires t.logs == s.logs
    ensures Grows(LogOf(s, scope), LogOf(t, scope))
  {
  }

  lemma CommitGrows(s: Sys, id: nat, norm: string -> Normalizer, scope: Scope)
    ensures Grows(LogOf(s, scope), LogOf(DoCommit(s, id, norm), scope))
  {
    hide Fits, RowsOf, UpsertAll, Batch, DoCrash;
    CrashGrows(s, id, scope);
  }

  lemma IncrementGrows(s: Sys, id: nat, scope: Scope)
    ensures Grows(LogOf(s, scope), LogOf(DoIncrement(s, id), scope))
  {
    hide BuildVersionKey, GetVersion;
  }

  lemma CrashGrows(s: Sys, id: nat, scope: Scope)
    ensures Grows(LogOf(s, scope), LogOf(DoCrash(s, id), scope))
  {
  }

  lemma LogsStay(s: Sys, e: Event, norm: string -> Normalizer)
    requires !e.CommitBatch? && !e.Increment? && !e.Crash?
    ensures Step(s, e, norm).logs == s.logs
  {
    hide AnswerFor, BuildCacheKey, Clean, CleanScope, GetVersion, IsEmpty, LogOf;
  }

  lemma ReadersStay(s: Sys, e: Event, norm: string -> Normalizer)
    requires e.CommitBatch? || e.Increment? || e.Crash? || e.StartWrite? || e.Expire?
    ensures Step(s, e, norm).readers == s.readers
  {
    hide BuildVersionKey, Fits, RowsOf, UpsertAll, CleanScope, Batch, LogOf, GetVersion;
  }

  lemma {:induction false} RunGrows(s: Sys, es: seq<Event>, norm: string -> Normalizer, scope: Scope)
    ensures Grows(LogOf(s, scope), LogOf(Run(s, es, norm), scope))
    decreases |es|
  {
    hide LogOf, Step;
    if es != [] {
      StepGrows(s, es[0], norm, scope);
      RunGrows(Step(s, es[0], norm), es[1..], norm, scope);
    }
  }

  /** A read keeps the request it was started with and the mark it started at. */
  lemma StepKeepsRead(s: Sys, e: Event, norm: string -> Normalizer, id: nat)
    requires id in s.readers
    ensures var t := Step(s, e, norm);
            id in t.readers && t.readers[id].req == s.readers[id].req && t.readers[id].floor == s.readers[id].floor
  {
    hide AnswerFor, BuildCacheKey, Clean, LogOf, GetVersion, IsEmpty, DoCommit, DoIncrement, DoCrash, DoStartWrite;
    if e.CommitBatch? || e.Increment? || e.Crash? || e.StartWrite? || e.Expire? { ReadersStay(s, e, norm); }
  }

  lemma {:induction false} RunKeepsRead(s: Sys, es: seq<Event>, norm: string -> Normalizer, id: nat)
    requires id in s.readers
    ensures var t := Run(s, es, norm);
            id in t.readers && t.readers[id].req == s.readers[id].req && t.readers[id].floor == s.readers[id].floor
    decreases |es|
  {
    hide Step;
    if es != [] {
      StepKeepsRead(s, es[0], norm, id);
      RunKeepsRead(Step(s, es[0], norm), es[1..], norm, id);
    }
  }

  lemma ReadStarts(s: Sys, id: nat, req: Request, norm: string -> Normalizer)
    requires id !in s.readers && Clean(req)
    ensures var t := Step(s, StartRead(id, req), norm);
            id in t.readers && t.readers[id] == Started(req, LogOf(s, req.scope).settled)
  {
    hide Clean, LogOf;
  }

  lemma IncrementSettles(s: Sys, w: nat, c: nat, norm: string -> Normalizer)
    requires w in s.writers && s.writers[w].rows == [] && s.writers[w].committed == Some(c)
    ensures c <= LogOf(Step(s, Increment(w), norm), s.writers[w].scope).settled
  {
    hide BuildVersionKey;
  }

  /** The answer to a question asked in the run under the key of req, on this table. */
  ghost predicate Answers(s: Sys, t: Table, req: Request, answer: Answer)
    requires Clean(req)
  {
    exists q :: Asked(s, q) && SharesKey(q, req) && answer == AnswerFor(t, q)
  }

  /** No call of the run asks another question under the key of req. */
  ghost predicate Alone(s: Sys, req: Request) { forall q :: Asked(s, q) ==> !Rival(q, req) }

  lemma AloneIsOwn(s: Sys, t: Table, req: Request, answer: Answer)
    requires Clean(req) && Answers(s, t, req, answer) && Alone(s, req)
    ensures answer == AnswerFor(t, req)
  {
    hide Asked, AnswerFor, KeyPieces, KeySet, ParseDate, YearOf, CleanScope;
    var q :| Asked(s, q) && SharesKey(q, req) && answer == AnswerFor(t, q);
    assert !Rival(q, req);
    SharedFields(q, req);
    SameQuestionSameAnswer(t, q, req);
  }

  /**
   An upsert, the writer's last commit being state `state`, returns after `before`; the reader starts
   after `between` and has its answer after `later`.
   */
  datatype History = History(before: seq<Event>, writer: nat, state: nat, between: seq<Event>, reader: nat,
                             later: seq<Event>, norm: string -> Normalizer)

  function Written(h: History): Sys { Run(INITIAL, h.before, h.norm) }

  function Returned(h: History): Sys { Run(Step(Written(h), Increment(h.writer), h.norm), h.between, h.norm) }

  function Answered(h: History, req: Request): Sys {
    Run(Step(Returned(h), StartRead(h.reader, req), h.norm), h.later, h.norm)
  }

  predicate ReadsAfter(h: History, req: Request) {
    var a, z := Written(h), Answered(h, req);
    h.writer in a.writers && a.writers[h.writer] == Writer(req.scope, [], Some(h.state)) &&
    h.reader !in Returned(h).readers && h.reader in z.readers && z.readers[h.reader].Finished?
  }

  /** The states of the scope from the one the upsert left on. */
  function StatesSince(h: History, req: Request): seq<Table> {
    var states := LogOf(Answered(h, req), req.scope).states;
    if h.state <= |states| then states[h.state..] else []
  }

  /**
   Read your writes: under any interleaving, a read started after an upsert returned answers from the
   state that upsert left or a later one. The answer is that to a question of the run with the same
   key; without a rival in the run it is the read's own.
   */
  lemma ReadAfterUpsert(h: History, req: Request)
    requires Clean(req) && ReadsAfter(h, req)
    ensures var z := Answered(h, req); var answer := z.readers[h.reader].answer;
            h.state < |LogOf(Written(h), req.scope).states| && StatesSince(h, req) != [] &&
            StatesSince(h, req)[0] == LogOf(Written(h), req.scope).states[h.state] &&
            (exists t :: t in StatesSince(h, req) && Answers(z, t, req, answer)) &&
            (Alone(z, req) ==> exists t :: t in StatesSince(h, req) && answer == AnswerFor(t, req))
  {
    hide LogOf, Run, AnswerFor, Clean, Step, Inv, ReaderOk, Answers, Alone;
    var a, b, z := Written(h), Returned(h), Answered(h, req);
    var a', b' := Step(a, Increment(h.writer), h.norm), Step(b, StartRead(h.reader, req), h.norm);
    InitialOk();
    RunOk(INITIAL, h.before, h.norm);
    WriterIsOk(a, h.writer);
    IncrementSettles(a, h.writer, h.state, h.norm);
    StepOk(a, Increment(h.writer), h.norm);
    RunOk(a', h.between, h.norm);
    StepOk(b, StartRead(h.reader, req), h.norm);
    RunOk(b', h.later, h.norm);
    StepGrows(a, Increment(h.writer), h.norm, req.scope);
    RunGrows(a', h.between, h.norm, req.scope);
    StepGrows(b, StartRead(h.reader, req), h.norm, req.scope);
    RunGrows(b', h.later, h.norm, req.scope);
    ReadStarts(b, h.reader, req, h.norm);
    RunKeepsRead(b', h.later, h.norm, h.reader);
    ReaderIsOk(z, h.reader);
    var at := FinishedIsFresh(z, z.readers[h.reader]);
    var states := LogOf(z, req.scope).states;
    assert states[at] == states[h.state..][at - h.state];
    if Alone(z, req) { AloneIsOwn(z, states[at], req, z.readers[h.reader].answer); }
  }

  lemma FinishedIsFresh(s: Sys, r: Reader) returns (at: nat)
    requires r.Finished? && ReaderOk(s, r)
    ensures r.floor <= at < |LogOf(s, r.req.scope).states| && Answers(s, LogOf(s, r.req.scope).states[at], r.req, r.answer)
  {
    hide LogOf, AnswerFor, ParseDate, YearOf, SharesKey, Asked;
    at := r.at;
    var l := LogOf(s, r.req.scope);
    var q :| Asked(s, q) && SharesKey(q, r.req) && FreshSince(l, r.floor, q, r.answer, r.at);
    assert r.answer == AnswerFor(l.states[at], q);
  }

  ghost predicate Quiet(s: Sys, scope: Scope) {
    forall id :: id in s.writers ==> s.writers[id].scope != scope
  }

  /**
   Once no upsert of a scope is running and none was torn since the last increment, every entry a
   reader can hit equals a fresh query, of a question of the run with its key; without a rival its own.
   */
  lemma QuietEntriesAreFresh(es: seq<Event>, norm: string -> Normalizer, req: Request)
    requires Clean(req)
    requires var s := Run(INITIAL, es, norm);
             Quiet(s, req.scope) && !LogOf(s, req.scope).torn &&
             BuildCacheKey(GetVersion(s, req.scope), req) in s.entries
    ensures var s := Run(INITIAL, es, norm);
            var answer := s.entries[BuildCacheKey(GetVersion(s, req.scope), req)].answer;
            Answers(s, Current(s, req.scope), req, answer) &&
            (Alone(s, req) ==> answer == AnswerFor(Current(s, req.scope), req))
  {
    hide LogOf, Run, AnswerFor, Clean, GetVersion, BuildCacheKey, Inv, Answers, Alone, Served;
    var s := Run(INITIAL, es, norm);
    InitialOk();
    RunOk(INITIAL, es, norm);
    ScopeIsOk(s, req.scope);
    CleanRequestScope(req);
    var v := GetVersion(s, req.scope);
    HitIsFresh(s, req, v);
    var l, e := LogOf(s, req.scope), s.entries[BuildCacheKey(v, req)];
    NewestServed(s, l, req, e.answer, e.at);
    if Alone(s, req) { AloneIsOwn(s, Current(s, req.scope), req, e.answer); }
  }

  lemma NewestServed(s: Sys, l: Log, req: Request, answer: Answer, at: nat)
    requires Clean(req) && Served(s, l, |l.states| - 1, req, answer, at)
    ensures Answers(s, Last(l.states), req, answer)
  {
    hide AnswerFor, SharesKey, Asked, Clean;
    var q :| Asked(s, q) && SharesKey(q, req) && FreshSince(l, |l.states| - 1, q, answer, at);
    assert at == |l.states| - 1;
  }

  // ---------- the torn upsert ----------

  /** Without the condition on torn upserts the answer can be stale; the next lemma has a run. */
  ghost predicate ServesStale(s: Sys, req: Request) {
    Clean(req) && Quiet(s, req.scope) &&
    BuildCacheKey(GetVersion(s, req.scope), req) in s.entries &&
    s.entries[BuildCacheKey(GetVersion(s, req.scope), req)].answer != AnswerFor(Current(s, req.scope), req)
  }

  lemma {:induction false} RunSnoc(s: Sys, es: seq<Event>, e: Event, norm: string -> Normalizer)
    ensures Run(s, es + [e], norm) == Step(Run(s, es, norm), e, norm)
    decreases |es|
  {
    hide Step;
    if es == [] {
      assert (es + [e])[1..] == [];
    } else {
      assert (es + [e])[1..] == es[1..] + [e];
      RunSnoc(Step(s, es[0], norm), es[1..], e, norm);
    }
  }

  lemma CardNotEmpty(t: Table, req: Request)
    requires req.CardRequest? && IsDate(req.from) && IsDate(req.to)
    ensures !IsEmpty(AnswerFor(t, req))
  {
  }

  /** The card of an empty table is cached, the first batch is committed, the second is rejected. */
  lemma TornSteps(req: Request, xs: seq<RowInput>, norm: string -> Normalizer)
    requires Clean(req) && req.CardRequest? && xs != []
    requires var n := norm(req.scope.platform);
             Fits(n, Batch(xs)) && xs[|Batch(xs)|..] != [] && !Fits(n, Batch(xs[|Batch(xs)|..])) &&
             AnswerFor([], req) != AnswerFor(UpsertAll([], RowsOf(n, Batch(xs))), req)
    ensures var es := [StartRead(0, req), ReadVersion(0), LookUp(0), Fetch(0), Store(0),
                       StartWrite(0, req.scope, xs), CommitBatch(0), CommitBatch(0)];
            ServesStale(Run(INITIAL, es, norm), req)
  {
    hide AnswerFor, BuildCacheKey, BuildVersionKey, Clean, Fits, RowsOf, UpsertAll, CleanScope, Batch, Run;
    CleanRequestScope(req);
    CardNotEmpty([], req);
    var e0, e1, e2, e3, e4 := StartRead(0, req), ReadVersion(0), LookUp(0), Fetch(0), Store(0);
    var e5, e6 := StartWrite(0, req.scope, xs), CommitBatch(0);
    var key := BuildCacheKey(0, req);
    var s0 := Step(INITIAL, e0, norm);
    var s1 := Step(s0, e1, norm);
    var s2 := Step(s1, e2, norm);
    assert s2.readers[0] == Missed(req, 0, 0);
    var s3 := Step(s2, e3, norm);
    var s4 := Step(s3, e4, norm);
    assert s4.entries[key].answer == AnswerFor([], req);
    var s5 := Step(s4, e5, norm);
    var s6 := Step(s5, e6, norm);
    var s7 := Step(s6, e6, norm);
    assert s7.entries == s4.entries && s7.versions == map[] && s7.writers == map[];
    RunEight(e0, e1, e2, e3, e4, e5, e6, e6, norm);
  }

  lemma RunEight(e0: Event, e1: Event, e2: Event, e3: Event, e4: Event, e5: Event, e6: Event, e7: Event,
                 norm: string -> Normalizer)
    ensures Run(INITIAL, [e0, e1, e2, e3, e4, e5, e6, e7], norm) ==
            Step(Step(Step(Step(Step(Step(Step(Step(INITIAL, e0, norm), e1, norm), e2, norm), e3, norm), e4, norm),
                           e5, norm), e6, norm), e7, norm)
  {
    hide Step, Run;
    assert Run(INITIAL, [], norm) == INITIAL by { RunNothing(INITIAL, norm); }
    RunSnoc(INITIAL, [], e0, norm);
    RunSnoc(INITIAL, [e0], e1, norm);
    RunSnoc(INITIAL, [e0, e1], e2, norm);
    RunSnoc(INITIAL, [e0, e1, e2], e3, norm);
    RunSnoc(INITIAL, [e0, e1, e2, e3], e4, norm);
    RunSnoc(INITIAL, [e0, e1, e2, e3, e4], e5, norm);
    RunSnoc(INITIAL, [e0, e1, e2, e3, e4, e5], e6, norm);
    RunSnoc(INITIAL, [e0, e1, e2, e3, e4, e5, e6], e7, norm);
    assert [] + [e0] == [e0];
    assert [e0] + [e1] == [e0, e1];
    assert [e0, e1] + [e2] == [e0, e1, e2];
    assert [e0, e1, e2] + [e3] == [e0, e1, e2, e3];
    assert [e0, e1, e2, e3] + [e4] == [e0, e1, e2, e3, e4];
    assert [e0, e1, e2, e3, e4] + [e5] == [e0, e1, e2, e3, e4, e5];
    assert [e0, e1, e2, e3, e4, e5] + [e6] == [e0, e1, e2, e3, e4, e5, e6];
    assert [e0, e1, e2, e3, e4, e5, e6] + [e7] == [e0, e1, e2, e3, e4, e5, e6, e7];
  }

  lemma RunNothing(s: Sys, norm: string -> Normalizer)
    ensures Run(s, [], norm) == s
  {
  }

  /** 501 rows for distinct metrics on 1970-01-01, the last one with a date that cannot be cast. */
  function TornRow(i: nat): RowInput {
    RowInput(Decimal(i), "1", if i < 500 then IsoDate(0) else "soon", None, None)
  }

  function TornRows(): (xs: seq<RowInput>)
    ensures |xs| == 501 && forall i :: 0 <= i < 501 ==> xs[i] == TornRow(i)
  {
    seq(501, i requires 0 <= i < 501 => TornRow(i))
  }

  function AsIs(platform: string): Normalizer { Normalizer((key, value) => (key, 1.0), x => true) }

  function TornCard(): Request { CardRequest(Scope("t", "c", "p"), IsoDate(0), IsoDate(0), [], SUM) }

  lemma Epoch()
    ensures IsSqlDate(IsoDate(0)) && DayOf(IsoDate(0)) == 0
  {
    hide IsoDate, ParseDate;
    YearStep(1970);
    YearOfUnique(0, 1970);
    ParseIsoDate(0);
  }

  lemma TornRowParses(i: nat)
    ensures RowOf(AsIs("p"), TornRow(i)) == if i < 500 then Some(Row(Decimal(i), 0, None, None, 1.0)) else None
  {
    hide IsoDate, Decimal;
    Epoch();
    assert |"soon"| == 4;
  }

  lemma TornRowsFit()
    ensures var n := AsIs("p"); var xs := TornRows();
            |Batch(xs)| == 500 && Fits(n, Batch(xs)) && xs[500..] != [] && !Fits(n, Batch(xs[500..]))
    ensures var rows := RowsOf(AsIs("p"), Batch(TornRows()));
            |rows| == 500 && rows[0] == Row(Decimal(0), 0, None, None, 1.0)
  {
    hide Decimal, RowOf, TornRow, AsIs, Fits, RowsOf;
    var xs := TornRows();
    FirstBatchFits(AsIs("p"), Batch(xs));
    TornRowParses(500);
    LateRowUnfit(AsIs("p"), Batch(xs[500..]));
  }

  lemma FirstBatchFits(n: Normalizer, b: seq<RowInput>)
    requires n == AsIs("p") && |b| == 500 && forall i :: 0 <= i < 500 ==> b[i] == TornRow(i)
    ensures Fits(n, b) && |RowsOf(n, b)| == 500 && RowsOf(n, b)[0] == Row(Decimal(0), 0, None, None, 1.0)
  {
    hide Decimal, RowOf, TornRow, AsIs;
    forall i | 0 <= i < 500 ensures RowOf(n, b[i]) == Some(Row(Decimal(i), 0, None, None, 1.0)) { TornRowParses(i); }
    RowsOfLength(n, b);
    var rows := RowsOf(n, b);
    hide RowsOf;
    forall i, j | 0 <= i < j < 500 ensures KeyOf(rows[i]) != KeyOf(rows[j]) {
      if Decimal(i) == Decimal(j) { DecimalInjective(i, j); }
    }
  }

  lemma LateRowUnfit(n: Normalizer, late: seq<RowInput>)
    requires late != [] && RowOf(n, late[0]) == None
    ensures !Fits(n, late)
  {
    hide RowOf, RowsOf;
  }

  lemma TornAnswerDiffers()
    ensures Clean(TornCard()) && IsDate(IsoDate(0))
    ensures AnswerFor([], TornCard()) != AnswerFor(UpsertAll([], RowsOf(AsIs("p"), Batch(TornRows()))), TornCard())
  {
    hide ParseDate, IsoDate, Decimal, Batch, RowsOf, TornRows, UpsertAll, AsIs;
    Epoch();
    TornRowsFit();
    var rows := RowsOf(AsIs("p"), Batch(TornRows()));
    var t := UpsertAll([], rows);
    var f := FilterOf(TornCard());
    UpsertAllKeeps([], rows, 0);
    var r :| r in t && KeyOf(r) == KeyOf(rows[0]);
    assert Matches(r, f);
    assert r.metric in QuerySummary(t, f, SUM);
    assert Present([], f) == {};
  }

  /** A concrete run after which, with no upsert running, the card answers from before the upsert. */
  lemma TornUpsertServesStale()
    ensures var req := TornCard();
            ServesStale(Run(INITIAL, [StartRead(0, req), ReadVersion(0), LookUp(0), Fetch(0), Store(0),
                                      StartWrite(0, req.scope, TornRows()), CommitBatch(0), CommitBatch(0)], AsIs), req)
  {
    hide ParseDate, IsoDate, Fits, Batch, Run, RowsOf, TornRows, UpsertAll, AsIs, AnswerFor;
    TornRowsFit();
    TornAnswerDiffers();
    TornSteps(TornCard(), TornRows(), AsIs);
  }

  lemma UpsertAllKeeps(t: Table, rows: seq<Row>, i: nat)
    requires i < |rows| && Distinct(t)
    ensures exists r :: r in UpsertAll(t, rows) && KeyOf(r) == KeyOf(rows[i])
  {
    hide UpsertAll, Contents, Override, LastValue;
    var u := UpsertAll(t, rows);
    UpsertAllOverrides(t, rows);
    ContentsKeys(u);
    OverrideAt(Contents(t), rows, KeyOf(rows[i]));
    LastValueFound(rows, i);
    var j :| 0 <= j < |u| && KeyOf(u[j]) == KeyOf(rows[i]);
    assert u[j] in u;
  }

  lemma {:induction false} LastValueFound(rows: seq<Row>, i: nat)
    requires i < |rows|
    ensures LastValue(rows, KeyOf(rows[i])).Some?
  {
    var n := |rows| - 1;
    if i < n {
      assert rows[..n][i] == rows[i];
      LastValueFound(rows[..n], i);
    }
  }
}
