/**
 When the cache can go wrong, and exactly when it cannot: upserts whose later batch is rejected, and
 different questions that share one key.
 */
module CacheGuards {
  import opened Options
  import opened Calendar
  import opened Periods
  import opened Metrics
  import opened CacheKeys
  import opened VersionedCache

  // ---------- the guard of upsertMetrics ----------

  /** Known before the call: there is nothing to write, every batch fits, or already the first does not. */
  predicate Whole(n: Normalizer, xs: seq<RowInput>) { xs == [] || AllFit(n, xs) || !Fits(n, Batch(xs)) }

  /** Under it a call writes everything or nothing; otherwise it stops after some batch was committed. */
  lemma WholeIsAllOrNothing(t: Table, n: Normalizer, xs: seq<RowInput>)
    ensures Whole(n, xs) ==> RunBatches(t, n, xs).1.Ok? || RunBatches(t, n, xs).0 == t
    ensures RunBatches(t, n, xs).1.Ok? <==> AllFit(n, xs)
  {
    hide Fits, RowsOf, UpsertAll, Batch;
    OkWhenAllFit(t, n, xs);
  }

  lemma {:induction false} OkWhenAllFit(t: Table, n: Normalizer, xs: seq<RowInput>)
    ensures RunBatches(t, n, xs).1.Ok? <==> AllFit(n, xs)
    decreases |xs|
  {
    hide Fits, RowsOf, UpsertAll;
    if xs != [] && Fits(n, Batch(xs)) { OkWhenAllFit(UpsertAll(t, RowsOf(n, Batch(xs))), n, xs[|Batch(xs)|..]); }
  }

  /** No process stops, and every upsert meets the guard. */
  ghost predicate Guarded(es: seq<Event>, norm: string -> Normalizer) {
    forall e :: e in es ==> GuardedEvent(e, norm)
  }

  predicate GuardedEvent(e: Event, norm: string -> Normalizer) {
    !e.Crash? && (e.StartWrite? ==> Whole(norm(e.scope.platform), e.rows))
  }

  /** A writer that has committed something will get through. */
  predicate GetsThrough(w: Writer, norm: string -> Normalizer) {
    AllFit(norm(w.scope.platform), w.rows) || (w.committed.None? && w.rows != [] && !Fits(norm(w.scope.platform), Batch(w.rows)))
  }

  ghost predicate Untorn(s: Sys, norm: string -> Normalizer) {
    (forall scope :: !LogOf(s, scope).torn) && (forall id :: id in s.writers ==> GetsThrough(s.writers[id], norm))
  }

  lemma UntornCommit(s: Sys, id: nat, norm: string -> Normalizer)
    requires Untorn(s, norm)
    ensures Untorn(DoCommit(s, id, norm), norm)
  {
    hide Fits, RowsOf, UpsertAll, Batch, GetVersion;
    var t := DoCommit(s, id, norm);
    if id in s.writers && s.writers[id].rows != [] {
      var w := s.writers[id];
      assert GetsThrough(w, norm);
      forall scope ensures !LogOf(t, scope).torn { assert !LogOf(s, scope).torn; }
    }
  }

  lemma UntornStep(s: Sys, e: Event, norm: string -> Normalizer)
    requires Untorn(s, norm) && GuardedEvent(e, norm)
    ensures Untorn(Step(s, e, norm), norm)
  {
    hide DoStartRead, DoReadVersion, DoLookUp, DoFetch, DoStore, Fits, Batch, BuildVersionKey, GetVersion, CleanScope;
    match e
    case CommitBatch(id) => UntornCommit(s, id, norm);
    case Increment(id) =>
      forall scope ensures !LogOf(DoIncrement(s, id), scope).torn { assert !LogOf(s, scope).torn; }
    case StartWrite(id, scope, rows) => LogsStay(s, e, norm); SameTorn(s, DoStartWrite(s, id, scope, rows));
    case _ => LogsStay(s, e, norm); WritersStay(s, e, norm); SameTorn(s, Step(s, e, norm));
  }

  lemma SameTorn(s: Sys, t: Sys)
    requires t.logs == s.logs
    ensures forall scope :: LogOf(t, scope) == LogOf(s, scope)
  {
  }

  lemma WritersStay(s: Sys, e: Event, norm: string -> Normalizer)
    requires !e.CommitBatch? && !e.Increment? && !e.Crash? && !e.StartWrite?
    ensures Step(s, e, norm).writers == s.writers
  {
    hide AnswerFor, BuildCacheKey, Clean, GetVersion, IsEmpty, LogOf;
  }

  lemma {:induction false} UntornRun(s: Sys, es: seq<Event>, norm: string -> Normalizer)
    requires Untorn(s, norm) && Guarded(es, norm)
    ensures Untorn(Run(s, es, norm), norm)
    decreases |es|
  {
    hide Step, Untorn, GuardedEvent;
    if es != [] {
      assert es[0] in es && forall e :: e in es[1..] ==> e in es;
      UntornStep(s, es[0], norm);
      UntornRun(Step(s, es[0], norm), es[1..], norm);
    }
  }

  lemma UntornInitial(norm: string -> Normalizer)
    ensures Untorn(INITIAL, norm)
  {
  }

  /** Under the guard, with no upsert of the scope running, every entry a reader can hit is fresh. */
  lemma GuardedRunsAreFresh(es: seq<Event>, norm: string -> Normalizer, req: Request)
    requires Clean(req) && Guarded(es, norm)
    requires var s := Run(INITIAL, es, norm);
             Quiet(s, req.scope) && BuildCacheKey(GetVersion(s, req.scope), req) in s.entries
    ensures var s := Run(INITIAL, es, norm);
            var answer := s.entries[BuildCacheKey(GetVersion(s, req.scope), req)].answer;
            Answers(s, Current(s, req.scope), req, answer) &&
            (Alone(s, req) ==> answer == AnswerFor(Current(s, req.scope), req))
  {
    hide Run, AnswerFor, Clean, GetVersion, BuildCacheKey, Current, Answers, Alone, Guarded, LogOf, GetsThrough;
    UntornInitial(norm);
    UntornRun(INITIAL, es, norm);
    QuietEntriesAreFresh(es, norm, req);
  }

  // ---------- reading through, step by step ----------

  lemma {:induction false} RunConcat(s: Sys, a: seq<Event>, b: seq<Event>, norm: string -> Normalizer)
    ensures Run(s, a + b, norm) == Run(Run(s, a, norm), b, norm)
    decreases |a|
  {
    hide Step;
    if a == [] {
      assert a + b == b;
    } else {
      assert (a + b)[1..] == a[1..] + b;
      RunConcat(Step(s, a[0], norm), a[1..], b, norm);
    }
  }

  lemma RunThree(s: Sys, a: Event, b: Event, c: Event, norm: string -> Normalizer)
    ensures Run(s, [a, b, c], norm) == Step(Step(Step(s, a, norm), b, norm), c, norm)
  {
    hide Step;
    assert [a, b, c][1..] == [b, c] && [b, c][1..] == [c] && [c][1..] == [];
    assert Run(Step(s, a, norm), [b, c], norm) == Run(Step(Step(s, a, norm), b, norm), [c], norm);
    RunOne(Step(Step(s, a, norm), b, norm), c, norm);
  }

  lemma RunOne(s: Sys, a: Event, norm: string -> Normalizer)
    ensures Run(s, [a], norm) == Step(s, a, norm)
  {
    hide Step;
    RunNothing(Step(s, a, norm), norm);
    assert [a][1..] == [];
  }

  function LookUpEvents(id: nat, req: Request): seq<Event> { [StartRead(id, req), ReadVersion(id), LookUp(id)] }

  /** Where a call's look-up leads: the cached answer, or a miss at the current version. */
  lemma LookedUp(s: Sys, id: nat, req: Request, norm: string -> Normalizer)
    requires id !in s.readers && Clean(req)
    ensures var v := GetVersion(s, req.scope); var key := BuildCacheKey(v, req); var floor := LogOf(s, req.scope).settled;
            Run(s, LookUpEvents(id, req), norm) ==
            WithReader(s, id, if key in s.entries then Finished(req, floor, s.entries[key].answer, s.entries[key].at)
                              else Missed(req, floor, v))
  {
    hide Clean, BuildCacheKey, Run, GetVersion, LogOf, DoFetch, DoStore, DoCommit, DoCrash, DoIncrement, DoStartWrite;
    RunThree(s, StartRead(id, req), ReadVersion(id), LookUp(id), norm);
    var floor := LogOf(s, req.scope).settled;
    var s1 := Step(s, StartRead(id, req), norm);
    assert s1 == WithReader(s, id, Started(req, floor));
    SameVersions(s, s1, req.scope);
    var s2 := Step(s1, ReadVersion(id), norm);
    assert s2 == WithReader(s, id, Versioned(req, floor, GetVersion(s, req.scope)));
    var s3 := Step(s2, LookUp(id), norm);
  }

  function ReadEvents(id: nat, req: Request): seq<Event> { LookUpEvents(id, req) + [Fetch(id), Store(id)] }

  /** A call that misses leaves the answer on the current table in the cache. */
  lemma MissIsStored(s: Sys, id: nat, req: Request, norm: string -> Normalizer)
    requires id !in s.readers && Clean(req)
    requires BuildCacheKey(GetVersion(s, req.scope), req) !in s.entries && !IsEmpty(AnswerFor(Current(s, req.scope), req))
    ensures var t := Run(s, ReadEvents(id, req), norm); var key := BuildCacheKey(GetVersion(s, req.scope), req);
            t.logs == s.logs && t.versions == s.versions && t.writers == s.writers
            && t.readers.Keys == s.readers.Keys + {id} && t.readers[id].req == req
            && (forall other :: other in s.readers ==> t.readers[other] == s.readers[other])
            && key in t.entries && t.entries[key].answer == AnswerFor(Current(s, req.scope), req)
  {
    hide Clean, BuildCacheKey, GetVersion, Run, AnswerFor, IsEmpty, LookUpEvents, DoStartRead, DoReadVersion, DoLookUp,
         DoStartWrite, DoCommit, DoCrash, DoIncrement;
    CleanRequestScope(req);
    RunConcat(s, LookUpEvents(id, req), [Fetch(id), Store(id)], norm);
    LookedUp(s, id, req, norm);
    var s3 := Run(s, LookUpEvents(id, req), norm);
    RunTwo(s3, Fetch(id), Store(id), norm);
    assert Current(s3, req.scope) == Current(s, req.scope);
    var s4 := Step(s3, Fetch(id), norm);
    assert s4.readers[id].Fetched? && s4.readers[id].answer == AnswerFor(Current(s, req.scope), req);
    var s5 := Step(s4, Store(id), norm);
  }

  lemma RunTwo(s: Sys, a: Event, b: Event, norm: string -> Normalizer)
    ensures Run(s, [a, b], norm) == Step(Step(s, a, norm), b, norm)
  {
    hide Step;
    assert [a, b][1..] == [b];
    RunOne(Step(s, a, norm), b, norm);
  }

  // ---------- an upsert that stops part way ----------

  /** The commits an upsert gets to, the rejected one included. */
  function Attempts(n: Normalizer, xs: seq<RowInput>): nat
    decreases |xs|
  {
    if xs == [] then 0 else if !Fits(n, Batch(xs)) then 1 else 1 + Attempts(n, xs[|Batch(xs)|..])
  }

  function Commits(id: nat, k: nat): seq<Event> { if k == 0 then [] else [CommitBatch(id)] + Commits(id, k - 1) }

  /** Only the log of the scope and the writer have changed. */
  ghost predicate OnlyLog(s: Sys, t: Sys) {
    t.versions == s.versions && t.entries == s.entries && t.readers == s.readers
  }

  lemma CommitFits(s: Sys, id: nat, norm: string -> Normalizer)
    requires id in s.writers && s.writers[id].rows != []
    requires Fits(norm(s.writers[id].scope.platform), Batch(s.writers[id].rows))
    ensures var w := s.writers[id]; var n := norm(w.scope.platform); var t := DoCommit(s, id, norm);
            OnlyLog(s, t) && t.writers.Keys == s.writers.Keys && t.writers[id].scope == w.scope
            && t.writers[id].rows == w.rows[|Batch(w.rows)|..] && t.writers - {id} == s.writers - {id}
            && Current(t, w.scope) == UpsertAll(Current(s, w.scope), RowsOf(n, Batch(w.rows)))
  {
    hide Fits, RowsOf, UpsertAll, Batch;
  }

  lemma CommitRejected(s: Sys, id: nat, norm: string -> Normalizer)
    requires id in s.writers && s.writers[id].rows != []
    requires !Fits(norm(s.writers[id].scope.platform), Batch(s.writers[id].rows))
    ensures var w := s.writers[id]; var t := DoCommit(s, id, norm);
            OnlyLog(s, t) && t.writers == s.writers - {id} && Current(t, w.scope) == Current(s, w.scope)
  {
    hide Fits, Batch;
  }

  /** Driven to its end, an upsert that is rejected leaves what its batches wrote, and the counter where it was. */
  lemma {:induction false} DrivenToRejection(s: Sys, id: nat, norm: string -> Normalizer)
    requires id in s.writers && !AllFit(norm(s.writers[id].scope.platform), s.writers[id].rows)
    ensures var w := s.writers[id]; var n := norm(w.scope.platform);
            var t := Run(s, Commits(id, Attempts(n, w.rows)), norm);
            OnlyLog(s, t) && t.writers == s.writers - {id}
            && Current(t, w.scope) == RunBatches(Current(s, w.scope), n, w.rows).0
    decreases |s.writers[id].rows|
  {
    hide Fits, RowsOf, UpsertAll, Current, DoCommit;
    var w := s.writers[id];
    var n := norm(w.scope.platform);
    var t := Step(s, CommitBatch(id), norm);
    if Fits(n, Batch(w.rows)) {
      CommitFits(s, id, norm);
      DrivenToRejection(t, id, norm);
      var k := Attempts(n, w.rows) - 1;
      assert Commits(id, k + 1)[0] == CommitBatch(id) && Commits(id, k + 1)[1..] == Commits(id, k);
    } else {
      CommitRejected(s, id, norm);
      assert Commits(id, 1) == [CommitBatch(id)];
      RunOne(s, CommitBatch(id), norm);
    }
  }

  /** The card of the first row's day. */
  function DayCard(scope: Scope, day: int): Request { CardRequest(scope, IsoDate(day), IsoDate(day), [], SUM) }

  lemma DayCardIsClean(scope: Scope, day: int)
    requires CleanScope(scope) && 1 <= YearOf(day) <= 9999
    ensures Clean(DayCard(scope, day)) && DayOf(IsoDate(day)) == day
  {
    hide ParseDate, IsoDate, YearOf, CleanScope;
    ParseIsoDate(day);
  }

  lemma FirstRow(n: Normalizer, xs: seq<RowInput>)
    requires xs != [] && Fits(n, Batch(xs))
    ensures RowOf(n, xs[0]).Some? && 1 <= YearOf(RowOf(n, xs[0]).value.day) <= 9999
    ensures RowsOf(n, Batch(xs)) != [] && RowsOf(n, Batch(xs))[0] == RowOf(n, xs[0]).value
  {
    hide ParseDate, YearOf, Distinct;
    assert Batch(xs)[0] == xs[0];
    RowsOfLength(n, Batch(xs));
    var recordedAt := if |xs[0].recordedAt| > 10 then xs[0].recordedAt[..10] else xs[0].recordedAt;
    ParsedYear(recordedAt);
  }

  /** The first row is in the table that the committed batches leave. */
  lemma FirstRowStays(t: Table, n: Normalizer, xs: seq<RowInput>)
    requires Metrics.Distinct(t) && xs != [] && Fits(n, Batch(xs))
    ensures exists r :: r in RunBatches(t, n, xs).0 && KeyOf(r) == KeyOf(RowOf(n, xs[0]).value)
  {
    hide Fits, RowsOf, Contents, UpsertAll, RowOf, Override;
    FirstRow(n, xs);
    var b := Batch(xs);
    var t1 := UpsertAll(t, RowsOf(n, b));
    var row := RowsOf(n, b)[0];
    UpsertAllOverrides(t, RowsOf(n, b));
    OverrideAt(Contents(t), RowsOf(n, b), KeyOf(row));
    LastValueFound(RowsOf(n, b), 0);
    KeysStay(t1, n, xs[|b|..], KeyOf(row));
    var u := RunBatches(t1, n, xs[|b|..]).0;
    ContentsKeys(u);
    var i :| 0 <= i < |u| && KeyOf(u[i]) == KeyOf(row);
    assert u[i] in u;
  }

  lemma {:induction false} KeysStay(t: Table, n: Normalizer, xs: seq<RowInput>, k: RowKey)
    requires Metrics.Distinct(t) && k in Contents(t)
    ensures k in Contents(RunBatches(t, n, xs).0)
    decreases |xs|
  {
    hide Fits, RowsOf, Contents, UpsertAll, Override;
    if xs != [] && Fits(n, Batch(xs)) {
      var rows := RowsOf(n, Batch(xs));
      UpsertAllOverrides(t, rows);
      OverrideAt(Contents(t), rows, k);
      KeysStay(UpsertAll(t, rows), n, xs[|Batch(xs)|..], k);
    }
  }

  lemma CardSees(t: Table, scope: Scope, r: Row)
    requires CleanScope(scope) && r in t && 1 <= YearOf(r.day) <= 9999
    ensures Clean(DayCard(scope, r.day)) && AnswerFor(t, DayCard(scope, r.day)) != AnswerFor([], DayCard(scope, r.day))
  {
    hide ParseDate, IsoDate, YearOf, CleanScope;
    DayCardIsClean(scope, r.day);
    var f := Filter(r.day, r.day, []);
    assert Matches(r, f) && r.metric in Present(t, f);
    assert r.metric in QuerySummary(t, f, SUM) && Present([], f) == {};
  }

  /** The card of the empty day is cached, then the upsert is driven to its rejection. */
  function TearingRun(scope: Scope, xs: seq<RowInput>, n: Normalizer): seq<Event>
    requires xs != [] && RowOf(n, xs[0]).Some?
  {
    ReadEvents(0, DayCard(scope, RowOf(n, xs[0]).value.day)) + [StartWrite(0, scope, xs)] + Commits(0, Attempts(n, xs))
  }

  lemma TearingServesStale(scope: Scope, xs: seq<RowInput>, norm: string -> Normalizer)
    requires CleanScope(scope) && !Whole(norm(scope.platform), xs)
    ensures RowOf(norm(scope.platform), xs[0]).Some?
    ensures var n := norm(scope.platform); var day := RowOf(n, xs[0]).value.day;
            StaleAlone(Run(INITIAL, TearingRun(scope, xs, n), norm), DayCard(scope, day))
  {
    hide Fits, RowsOf, UpsertAll, RowOf, AllFit, ReadEvents, DayCard, Run, AnswerFor, Clean, BuildCacheKey, GetVersion, CleanScope, YearOf, RunBatches;
    var n := norm(scope.platform);
    FirstRow(n, xs);
    var day := RowOf(n, xs[0]).value.day;
    var card := DayCard(scope, day);
    CardOnInitial(scope, day, norm);
    var a := Run(INITIAL, ReadEvents(0, card), norm);
    var b := Step(a, StartWrite(0, scope, xs), norm);
    assert b == a.(writers := a.writers[0 := Writer(scope, xs, None)]) && a.writers == map[];
    assert Current(b, scope) == [] && GetVersion(b, scope) == GetVersion(INITIAL, scope) by { SameVersions(INITIAL, b, scope); }
    DrivenToRejection(b, 0, norm);
    var z := Run(b, Commits(0, Attempts(n, xs)), norm);
    FirstRowStays([], n, xs);
    var r :| r in RunBatches([], n, xs).0 && KeyOf(r) == KeyOf(RowOf(n, xs[0]).value);
    CardSees(Current(z, scope), scope, r);
    SameVersions(b, z, scope);
    OnlyReader(z, card);
    RunConcat(INITIAL, ReadEvents(0, card) + [StartWrite(0, scope, xs)], Commits(0, Attempts(n, xs)), norm);
    RunConcat(INITIAL, ReadEvents(0, card), [StartWrite(0, scope, xs)], norm);
    RunOne(a, StartWrite(0, scope, xs), norm);
  }

  lemma SameVersions(s: Sys, t: Sys, scope: Scope)
    requires t.versions == s.versions
    ensures GetVersion(t, scope) == GetVersion(s, scope)
  {
  }

  lemma CardOnInitial(scope: Scope, day: int, norm: string -> Normalizer)
    requires CleanScope(scope) && 1 <= YearOf(day) <= 9999
    ensures var card := DayCard(scope, day); var t := Run(INITIAL, ReadEvents(0, card), norm);
            Clean(card) && card.scope == scope && t.logs == map[] && t.versions == map[] && t.writers == map[]
            && t.readers.Keys == {0} && t.readers[0].req == card
            && BuildCacheKey(GetVersion(INITIAL, scope), card) in t.entries
            && t.entries[BuildCacheKey(GetVersion(INITIAL, scope), card)].answer == AnswerFor([], card)
  {
    hide Clean, BuildCacheKey, Run, ReadEvents, AnswerFor, IsoDate, YearOf, CleanScope;
    DayCardIsClean(scope, day);
    var card := DayCard(scope, day);
    CardIsKept([], card);
    assert Current(INITIAL, scope) == [];
    MissIsStored(INITIAL, 0, card, norm);
  }

  lemma CardIsKept(t: Table, req: Request)
    requires req.CardRequest? && Clean(req)
    ensures !IsEmpty(AnswerFor(t, req))
  {
  }

  lemma OnlyReader(s: Sys, req: Request)
    requires s.readers.Keys == {0} && s.readers[0].req == req
    ensures Alone(s, req)
  {
    hide SharesKey;
  }

  /** A stale answer that no rival accounts for. */
  ghost predicate StaleAlone(s: Sys, req: Request) { ServesStale(s, req) && Alone(s, req) }

  /** All upserts of the run write these rows to this scope, and no process stops. */
  ghost predicate OnlyWrites(es: seq<Event>, scope: Scope, xs: seq<RowInput>) {
    forall e :: e in es ==> !e.Crash? && (e.StartWrite? ==> e.scope == scope && e.rows == xs)
  }

  /** However often the call is made, and with whatever reads around it, no stale answer is left to serve. */
  ghost predicate Harmless(scope: Scope, xs: seq<RowInput>, norm: string -> Normalizer) {
    forall es, req :: OnlyWrites(es, scope, xs) ==> !StaleAlone(Run(INITIAL, es, norm), req)
  }

  lemma TearingWrites(scope: Scope, xs: seq<RowInput>, n: Normalizer)
    requires xs != [] && RowOf(n, xs[0]).Some?
    ensures OnlyWrites(TearingRun(scope, xs, n), scope, xs)
  {
    hide RowOf, DayCard;
    OnlyCommits(0, Attempts(n, xs));
  }

  lemma {:induction false} OnlyCommits(id: nat, k: nat)
    ensures forall e :: e in Commits(id, k) ==> e == CommitBatch(id)
  {
    if k > 0 { OnlyCommits(id, k - 1); }
  }

  /** An upsert can leave a stale answer behind exactly when it does not meet the guard. */
  lemma TearsExactly(scope: Scope, xs: seq<RowInput>, norm: string -> Normalizer)
    requires CleanScope(scope)
    ensures Harmless(scope, xs, norm) <==> Whole(norm(scope.platform), xs)
  {
    hide Run, StaleAlone, OnlyWrites, Whole, CleanScope, TearingRun, DayCard, RowOf;
    if Whole(norm(scope.platform), xs) {
      forall es, req | OnlyWrites(es, scope, xs) ensures !StaleAlone(Run(INITIAL, es, norm), req) {
        NoneStale(scope, xs, norm, es, req);
      }
    } else {
      TearingServesStale(scope, xs, norm);
      NotEmpty(norm(scope.platform), xs);
      TearingWrites(scope, xs, norm(scope.platform));
      assert !Harmless(scope, xs, norm);
    }
  }

  lemma NotEmpty(n: Normalizer, xs: seq<RowInput>)
    requires !Whole(n, xs)
    ensures xs != []
  {
  }

  lemma NoneStale(scope: Scope, xs: seq<RowInput>, norm: string -> Normalizer, es: seq<Event>, req: Request)
    requires OnlyWrites(es, scope, xs) && Whole(norm(scope.platform), xs)
    ensures !StaleAlone(Run(INITIAL, es, norm), req)
  {
    hide Run, AnswerFor, BuildCacheKey, GetVersion, Clean, Current, Whole, Quiet, Alone, Answers;
    if StaleAlone(Run(INITIAL, es, norm), req) { GuardedRunsAreFresh(es, norm, req); }
  }

  // ---------- rivals ----------

  /** One row of metric m is written; then the rival is asked, and then the question. */
  function RivalHistory(q: Request, req: Request, m: string): History {
    History([StartWrite(0, req.scope, [RowInput(m, "1", req.from, None, None)]), CommitBatch(0)], 0, 1,
            ReadEvents(0, q), 1, [ReadVersion(1), LookUp(1)], AsIs)
  }

  lemma OneRowFits(m: string, req: Request)
    requires Clean(req)
    ensures var xs := [RowInput(m, "1", req.from, None, None)]; var n := AsIs(req.scope.platform);
            Batch(xs) == xs && Fits(n, xs) && RowsOf(n, xs) == OneRow(m, req)
  {
    hide ParseDate, YearOf;
    DateLength(req.from);
    var xs := [RowInput(m, "1", req.from, None, None)];
    assert xs[1..] == [];
    assert RowsOf(AsIs(req.scope.platform), xs[1..]) == [];
  }

  lemma DateLength(s: string)
    requires IsDate(s)
    ensures |s| == 10
  {
  }

  lemma UpsertOne(r: Row)
    ensures UpsertAll([], [r]) == [r]
  {
    assert [r][1..] == [];
    assert UpsertAll([r], []) == [r];
  }

  lemma OneRowCommitted(q: Request, req: Request, m: string)
    requires Clean(req)
    ensures var a := Written(RivalHistory(q, req, m));
            a.entries == map[] && a.readers == map[] && a.writers == map[0 := Writer(req.scope, [], Some(1))]
            && LogOf(a, req.scope).states == [[], OneRow(m, req)]
  {
    hide ParseDate, YearOf, Clean, Run;
    CleanRequestScope(req);
    var x := RowInput(m, "1", req.from, None, None);
    OneRowFits(m, req);
    UpsertOne(OneRow(m, req)[0]);
    assert OneRow(m, req) == [OneRow(m, req)[0]];
    hide Fits, RowsOf, AsIs, Batch, OneRow, UpsertAll;
    RunTwo(INITIAL, StartWrite(0, req.scope, [x]), CommitBatch(0), AsIs);
    var a := Step(INITIAL, StartWrite(0, req.scope, [x]), AsIs);
    assert a.writers == map[0 := Writer(req.scope, [x], None)] && a.entries == map[] && a.readers == map[];
    assert LogOf(a, req.scope).states == [[]];
  }

  lemma IncrementKeeps(s: Sys, id: nat, norm: string -> Normalizer)
    requires id in s.writers && s.writers[id].rows == []
    ensures var t := Step(s, Increment(id), norm); var scope := s.writers[id].scope;
            t.entries == s.entries && t.readers == s.readers && LogOf(t, scope).states == LogOf(s, scope).states
  {
    hide BuildVersionKey, GetVersion;
  }

  /** What is kept: a card always, a chart that has labels. */
  lemma SpanningIsKept(t: Table, q: Request, req: Request)
    requires Clean(req) && SameFields(q, req) && Spans(req)
    ensures !IsEmpty(AnswerFor(t, q))
  {
    hide ParseDate, YearOf, CleanScope, LabelDays, QuerySummary, ChartRow;
  }

  lemma RivalStored(q: Request, req: Request, m: string)
    requires Clean(req) && Rival(q, req) && Spans(req)
    ensures var h := RivalHistory(q, req, m); var b := Returned(h); var key := BuildCacheKey(GetVersion(b, req.scope), req);
            b.readers.Keys == {0} && LogOf(b, req.scope).states == [[], OneRow(m, req)]
            && key in b.entries && b.entries[key].answer == AnswerFor(OneRow(m, req), q)
  {
    hide Clean, BuildCacheKey, Run, ReadEvents, AnswerFor, ParseDate, YearOf, GetVersion, IsEmpty, AsIs, Step, SameQuestion,
         KeyPieces, OneRow, Spans;
    var h := RivalHistory(q, req, m);
    OneRowCommitted(q, req, m);
    IncrementKeeps(Written(h), 0, AsIs);
    var a := Step(Written(h), Increment(0), AsIs);
    SharedFields(q, req);
    CleanRequestScope(req);
    SpanningIsKept(OneRow(m, req), q, req);
    MissIsStored(a, 0, q, AsIs);
    var b := Returned(h);
    SameVersions(a, b, req.scope);
    SameTorn(a, b);
    CacheKeyExact(GetVersion(a, req.scope), q, GetVersion(a, req.scope), req);
  }

  /** The question gets its rival's answer on the one table there is since the upsert. */
  lemma RivalAnswered(q: Request, req: Request, m: string)
    requires Clean(req) && Rival(q, req) && Spans(req)
    ensures var h := RivalHistory(q, req, m);
            ReadsAfter(h, req) && StatesSince(h, req) == [OneRow(m, req)]
            && Answered(h, req).readers[1].answer == AnswerFor(OneRow(m, req), q)
  {
    hide Clean, BuildCacheKey, Run, LookUpEvents, AnswerFor, GetVersion, AsIs, Step, Rival, OneRow, Spans;
    var h := RivalHistory(q, req, m);
    OneRowCommitted(q, req, m);
    RivalStored(q, req, m);
    LookedUp(Returned(h), 1, req, AsIs);
    StartsWithRead(Returned(h), 1, req, AsIs);
    SameTorn(Returned(h), Answered(h, req));
  }

  lemma StartsWithRead(s: Sys, id: nat, req: Request, norm: string -> Normalizer)
    ensures Run(s, LookUpEvents(id, req), norm) == Run(Step(s, StartRead(id, req), norm), [ReadVersion(id), LookUp(id)], norm)
  {
    hide Step;
    assert LookUpEvents(id, req)[1..] == [ReadVersion(id), LookUp(id)];
  }

  ghost predicate OwnAnswer(h: History, req: Request)
    requires Clean(req) && ReadsAfter(h, req)
  {
    exists t :: t in StatesSince(h, req) && Answered(h, req).readers[h.reader].answer == AnswerFor(t, req)
  }

  /** Whatever else runs, the read answers its own question on a state no older than an upsert that had returned. */
  ghost predicate ReadsItsOwn(req: Request)
    requires Clean(req)
  {
    forall h :: ReadsAfter(h, req) ==> OwnAnswer(h, req)
  }

  /** A question with a rival can be answered wrongly, cards and charts and every aggregate alike. */
  lemma RivalMisleads(q: Request, req: Request)
    requires Clean(req) && Rival(q, req) && Spans(req)
    ensures !ReadsItsOwn(req)
  {
    hide Clean, AnswerFor, Rival, Spans, StatesSince, Answered, ReadsAfter;
    var m := TellingMetric(q, req);
    var h := RivalHistory(q, req, m);
    RivalAnswered(q, req, m);
    RivalRow(q, req, m);
    assert !OwnAnswer(h, req);
  }

  lemma RivalRow(q: Request, req: Request, m: string)
    requires Clean(req) && Rival(q, req) && Spans(req) && Selects(q.keys, m) != Selects(req.keys, m)
    ensures AnswerFor(OneRow(m, req), q) != AnswerFor(OneRow(m, req), req)
  {
    hide ParseDate, YearOf, AnswerFor, OneRow, Selects, Spans;
    RowTells(req, q, m);
  }

  /** Without a rival, or with nothing in its range, a read has its own answer. */
  lemma UnrivalledIsOwn(h: History, req: Request)
    requires Clean(req) && ReadsAfter(h, req) && !(Spans(req) && Contested(req.keys))
    ensures OwnAnswer(h, req)
  {
    hide Clean, AnswerFor, Rival, Spans, StatesSince, Written, Returned, Answered, SharesKey, Asked, Contested;
    CleanRequestScope(req);
    ReadAfterUpsert(h, req);
    var z := Answered(h, req);
    var answer := z.readers[h.reader].answer;
    var t :| t in StatesSince(h, req) && Answers(z, t, req, answer);
    var q := AnsweredFor(z, t, req, answer);
    if Spans(req) {
      RivalExactly(req);
      assert !Rival(q, req);
      SharedAnswer(t, q, req);
    } else {
      EmptyAnswer(t, q, req);
    }
  }

  lemma AnsweredFor(s: Sys, t: Table, req: Request, answer: Answer) returns (q: Request)
    requires Clean(req) && Answers(s, t, req, answer)
    ensures SharesKey(q, req) && Clean(q) && IsDate(q.from) && IsDate(q.to) && answer == AnswerFor(t, q)
  {
    hide AnswerFor, Asked, KeyPieces, ParseDate, YearOf, CleanScope;
    q :| Asked(s, q) && SharesKey(q, req) && answer == AnswerFor(t, q);
  }

  lemma SharedAnswer(t: Table, q: Request, req: Request)
    requires Clean(req) && Clean(q) && SharesKey(q, req) && !Rival(q, req)
    ensures AnswerFor(t, q) == AnswerFor(t, req)
  {
    hide AnswerFor, SharesKey, SameQuestion, ParseDate, YearOf, CleanScope;
    SameQuestionSameAnswer(t, q, req);
  }

  lemma EmptyAnswer(t: Table, q: Request, req: Request)
    requires Clean(req) && Clean(q) && SharesKey(q, req) && !Spans(req)
    ensures AnswerFor(t, q) == AnswerFor(t, req)
  {
    hide AnswerFor, KeyPieces, ParseDate, YearOf, CleanScope, Spans;
    NothingToTell(t, req, q);
  }

  /**
   Reading one's own question after a write, under every interleaving, normalisation and column test: it
   holds for exactly the requests whose range spans nothing or whose list of metric keys no list of other
   keys prints like.
   */
  lemma OwnAnswerExactly(req: Request)
    requires Clean(req)
    ensures ReadsItsOwn(req) <==> !(Spans(req) && Contested(req.keys))
  {
    hide Clean, Spans, Contested, ReadsAfter, Rival, OwnAnswer;
    CleanRequestScope(req);
    if Spans(req) && Contested(req.keys) {
      RivalExactly(req);
      var q :| Rival(q, req);
      RivalMisleads(q, req);
    } else {
      forall h | ReadsAfter(h, req) ensures OwnAnswer(h, req) { UnrivalledIsOwn(h, req); }
    }
  }

  /** Asked after a goal on the metric "clicks,impressions", the card of clicks and impressions comes back empty. */
  lemma CommaGoalEmptiesCard(scope: Scope, from: string, to: string, agg: Aggregate)
    requires CleanScope(scope) && IsSqlDate(from) && IsSqlDate(to) && DayOf(from) <= DayOf(to)
    ensures var card := CardRequest(scope, from, to, ["clicks", "impressions"], agg);
            var h := RivalHistory(CardRequest(scope, from, to, ["clicks,impressions"], agg), card, "clicks");
            ReadsAfter(h, card) && StatesSince(h, card) == [OneRow("clicks", card)]
            && Answered(h, card).readers[1].answer == Totals(map[])
            && AnswerFor(OneRow("clicks", card), card) != Totals(map[])
  {
    hide ParseDate, YearOf, CleanScope, QuerySummary, Rival, ReadsAfter, StatesSince, Answered;
    var card := CardRequest(scope, from, to, ["clicks", "impressions"], agg);
    var goal := CardRequest(scope, from, to, ["clicks,impressions"], agg);
    KnownRivals(card);
    assert |"clicks"| != |"clicks,impressions"|;
    RivalAnswered(goal, card, "clicks");
    RivalRow(goal, card, "clicks");
    NothingSelected(OneRow("clicks", card)[0], FilterOf(goal), agg);
  }

  lemma NothingSelected(r: Row, f: Filter, agg: Aggregate)
    requires f.keys != [] && r.metric !in f.keys
    ensures QuerySummary([r], f, agg) == map[]
  {
    hide Values, Latest;
    assert Present([r], f) == {};
  }

  // ---------- a rule that callers can keep ----------

  /** Every call of the run asks for a plain list of metrics. */
  ghost predicate PlainCalls(es: seq<Event>) { forall e :: e in es && e.StartRead? ==> Plain(e.req) }

  ghost predicate PlainAsked(s: Sys) { forall id :: id in s.readers ==> Plain(s.readers[id].req) }

  lemma PlainStep(s: Sys, e: Event, norm: string -> Normalizer)
    requires PlainAsked(s) && (e.StartRead? ==> Plain(e.req))
    ensures PlainAsked(Step(s, e, norm))
  {
    hide AnswerFor, BuildCacheKey, Clean, LogOf, GetVersion, IsEmpty, DoCommit, DoIncrement, DoCrash, DoStartWrite, Plain;
    if e.CommitBatch? || e.Increment? || e.Crash? || e.StartWrite? || e.Expire? { ReadersStay(s, e, norm); }
  }

  lemma {:induction false} PlainRun(s: Sys, es: seq<Event>, norm: string -> Normalizer)
    requires PlainAsked(s) && PlainCalls(es)
    ensures PlainAsked(Run(s, es, norm))
    decreases |es|
  {
    hide Step, PlainAsked, Plain;
    if es != [] {
      assert es[0] in es && forall e :: e in es[1..] ==> e in es;
      PlainStep(s, es[0], norm);
      PlainRun(Step(s, es[0], norm), es[1..], norm);
    }
  }

  /** If every call of a run is plain, each finished read of it has its own answer, on a state no older than it may be. */
  lemma PlainRunsAreOwn(es: seq<Event>, norm: string -> Normalizer, id: nat)
    requires PlainCalls(es)
    requires var s := Run(INITIAL, es, norm); id in s.readers && s.readers[id].Finished?
    ensures var s := Run(INITIAL, es, norm); var r := s.readers[id]; var states := LogOf(s, r.req.scope).states;
            Clean(r.req) && exists at :: r.floor <= at < |states| && r.answer == AnswerFor(states[at], r.req)
  {
    hide Run, AnswerFor, Clean, LogOf, Inv, Rival, Plain, Answers;
    var s := Run(INITIAL, es, norm);
    InitialOk();
    RunOk(INITIAL, es, norm);
    ReaderIsOk(s, id);
    var r := s.readers[id];
    PlainRun(INITIAL, es, norm);
    PlainAlone(s, r.req);
    var at := FinishedIsFresh(s, r);
    AloneIsOwn(s, LogOf(s, r.req.scope).states[at], r.req, r.answer);
  }

  lemma PlainAlone(s: Sys, req: Request)
    requires PlainAsked(s) && Plain(req)
    ensures Alone(s, req)
  {
    hide Plain, Rival;
    forall q | Asked(s, q) ensures !Rival(q, req) { PlainHaveNoRivals(q, req); }
  }
}
