/** The metrics service and its cache as objects, one call at a time. */
module MetricsService {
  import opened Options
  import opened Calendar
  import opened Periods
  import opened Metrics
  import opened CacheKeys
  import opened CacheGuards

  class CacheService {
    var versions: map<string, nat>
    var entries: map<string, Answer>

    constructor ()
      ensures versions == map[] && entries == map[]
    {
      versions, entries := map[], map[];
    }

    function Version(versionKey: string): nat
      reads this
    {
      if versionKey in versions then versions[versionKey] else 0
    }

    method GetVersion(versionKey: string) returns (v: nat)
      ensures v == Version(versionKey)
    {
      v := 0;
      if versionKey in versions { v := versions[versionKey]; }
    }

    method IncrementVersion(versionKey: string) returns (v: nat)
      modifies this`versions
      ensures v == old(Version(versionKey)) + 1 && versions == old(versions)[versionKey := v]
    {
      v := GetVersion(versionKey);
      v := v + 1;
      versions := versions[versionKey := v];
    }

    method Get(key: string) returns (cached: Option<Answer>)
      ensures cached == if key in entries then Some(entries[key]) else None
    {
      cached := None;
      if key in entries { cached := Some(entries[key]); }
    }

    /** The second half of getOrSet: an empty array is returned but not kept. */
    method Keep(key: string, answer: Answer)
      modifies this`entries
      ensures entries == if answer == Series([]) then old(entries) else old(entries)[key := answer]
    {
      var isEmpty := answer.Series? && |answer.rows| == 0;
      if !isEmpty { entries := entries[key := answer]; }
    }

    method GetOrSet(key: string, fn: () -> Answer) returns (answer: Answer)
      modifies this`entries
      ensures key in old(entries) ==> answer == old(entries)[key] && entries == old(entries)
      ensures key !in old(entries) ==> answer == fn()
      ensures key !in old(entries) ==>
                entries == if answer == Series([]) then old(entries) else old(entries)[key := answer]
    {
      var cached := Get(key);
      if cached.Some? { return cached.value; }
      answer := fn();
      Keep(key, answer);
    }
  }

  class MetricsService {
    const cache: CacheService
    const normalize: string -> Normalizer
    var db: map<Scope, Table>
    /** The questions asked so far. */
    ghost var asked: set<Request>

    constructor (cache: CacheService, normalize: string -> Normalizer)
      ensures this.cache == cache && this.normalize == normalize && db == map[] && asked == {}
    {
      this.cache, this.normalize, db, asked := cache, normalize, map[], {};
    }

    function TableOf(scope: Scope): Table
      reads this
    {
      if scope in db then db[scope] else []
    }

    /** The answer a query of t would give to one of these questions, one with the key of r. */
    static ghost predicate OneOf(questions: set<Request>, t: Table, r: Request, answer: Answer)
      requires Clean(r)
    {
      exists q :: q in questions && SharesKey(q, r) && answer == AnswerFor(t, q)
    }

    /** The answer a fresh query would give to a question asked under the key of r. */
    ghost predicate Right(r: Request, answer: Answer)
      reads this
      requires Clean(r)
    {
      OneOf(asked, TableOf(r.scope), r, answer)
    }

    /** No other question under the key of r has been asked. */
    ghost predicate Alone(r: Request)
      reads this
    {
      forall q :: q in asked ==> !Rival(q, r)
    }

    /** A cached answer a request can still hit is right. */
    ghost predicate Coherent()
      reads this, cache
    {
      forall v: nat, r: Request :: Clean(r) && BuildCacheKey(v, r) in cache.entries ==>
        v <= cache.Version(BuildVersionKey(r.scope)) &&
        (v == cache.Version(BuildVersionKey(r.scope)) ==>
           Right(r, cache.entries[BuildCacheKey(v, r)]))
    }

    method UpsertBatch(scope: Scope, rows: seq<RowInput>) returns (r: Result<nat, UpsertError>)
      requires rows != []
      modifies this`db
      ensures var fits := Fits(normalize(scope.platform), rows);
              db == (if fits then old(db)[scope := UpsertAll(old(TableOf(scope)), RowsOf(normalize(scope.platform), rows))]
                     else old(db)) &&
              r == if fits then Ok(|rows|) else Err(BatchRejected)
    {
      var norm := normalize(scope.platform);
      if !Fits(norm, rows) { return Err(BatchRejected); }
      db := db[scope := UpsertAll(TableOf(scope), RowsOf(norm, rows))];
      return Ok(|rows|);
    }

    /**
     The committed table and the outcome are those of RunBatches; only a call that wrote all its
     batches increments the version, and after it every answer the cache can serve is fresh again.
     */
    method UpsertMetrics(scope: Scope, rows: seq<RowInput>) returns (r: Result<nat, UpsertError>)
      modifies this`db, cache`versions
      ensures (TableOf(scope), r) == RunBatches(old(TableOf(scope)), normalize(scope.platform), rows)
      ensures forall other :: other != scope ==> TableOf(other) == old(TableOf(other))
      ensures var key := BuildVersionKey(scope);
              cache.versions == if r.Ok? && rows != [] then old(cache.versions)[key := old(cache.Version(key)) + 1]
                                else old(cache.versions)
      ensures old(Coherent()) && CleanScope(scope) && (Whole(normalize(scope.platform), rows) || r.Ok?) ==> Coherent()
      ensures asked == old(asked)
    {
      hide Fits, RowsOf, UpsertAll, BuildVersionKey, Coherent, Whole, AllFit, RunBatches, Later;
      WholeIsAllOrNothing(TableOf(scope), normalize(scope.platform), rows);
      NoBatches(TableOf(scope), normalize(scope.platform), RunBatches(TableOf(scope), normalize(scope.platform), rows));
      if |rows| == 0 { return Ok(0); }
      ghost var norm := normalize(scope.platform);
      ghost var start := TableOf(scope);
      var total := 0;
      var i := 0;
      while i < |rows|
        invariant 0 <= i
        invariant RunBatches(start, norm, rows) == Later(total, RunBatches(TableOf(scope), norm, From(rows, i)))
        invariant forall other :: other != scope ==> TableOf(other) == old(TableOf(other))
        invariant cache.versions == old(cache.versions) && cache.entries == old(cache.entries)
      {
        var next := if i + UPSERT_BATCH_SIZE < |rows| then i + UPSERT_BATCH_SIZE else |rows|;
        BatchStep(TableOf(scope), norm, rows, i, total);
        var written := UpsertBatch(scope, rows[i..next]);
        if written.Err? {
          if old(Coherent()) && Whole(norm, rows) { CoherentUnchanged(); }
          return written;
        }
        total := total + written.value;
        i := i + UPSERT_BATCH_SIZE;
      }
      assert From(rows, i) == [];
      LastBatch(TableOf(scope), norm, total);
      var _ := cache.IncrementVersion(BuildVersionKey(scope));
      r := Ok(total);
      if old(Coherent()) && CleanScope(scope) { CoherentAfterIncrement(scope); }
    }

    twostate lemma CoherentUnchanged()
      requires old(Coherent()) && cache.entries == old(cache.entries) && cache.versions == old(cache.versions)
      requires asked == old(asked) && forall scope :: TableOf(scope) == old(TableOf(scope))
      ensures Coherent()
    {
      hide BuildCacheKey, AnswerFor, BuildVersionKey, TableOf, SharesKey, Clean;
    }

    /** The new version has no entries yet, and nothing of another scope moved. */
    twostate lemma CoherentAfterIncrement(scope: Scope)
      requires old(Coherent()) && CleanScope(scope) && cache.entries == old(cache.entries)
      requires var key := BuildVersionKey(scope);
               cache.versions == old(cache.versions)[key := old(cache.Version(key)) + 1]
      requires asked == old(asked) && forall other :: other != scope ==> TableOf(other) == old(TableOf(other))
      ensures Coherent()
    {
      hide BuildCacheKey, AnswerFor, BuildVersionKey, TableOf, ParseDate, YearOf;
      forall v: nat, q: Request | Clean(q) && BuildCacheKey(v, q) in cache.entries
        ensures v <= cache.Version(BuildVersionKey(q.scope))
        ensures v == cache.Version(BuildVersionKey(q.scope)) ==> Right(q, cache.entries[BuildCacheKey(v, q)])
      {
        assert v <= old(cache.Version(BuildVersionKey(q.scope)));
        if q.scope != scope && BuildVersionKey(q.scope) == BuildVersionKey(scope) {
          VersionKeyInjective(q.scope, scope);
        }
      }
    }

    static function From(rows: seq<RowInput>, i: nat): seq<RowInput> { if i <= |rows| then rows[i..] else [] }

    static lemma NoBatches(t: Table, norm: Normalizer, all: (Table, Result<nat, UpsertError>))
      ensures RunBatches(t, norm, []) == (t, Ok(0)) && Later(0, all) == all
    {
    }

    static lemma LastBatch(t: Table, norm: Normalizer, total: nat)
      ensures Later(total, RunBatches(t, norm, [])) == (t, Ok(total))
    {
    }

    /** One turn of the loop takes the first of the remaining batches. */
    static lemma BatchStep(t: Table, norm: Normalizer, rows: seq<RowInput>, i: nat, total: nat)
      requires i < |rows|
      ensures var next := if i + UPSERT_BATCH_SIZE < |rows| then i + UPSERT_BATCH_SIZE else |rows|; var b := rows[i..next];
              b != [] && Later(total, RunBatches(t, norm, From(rows, i))) ==
              if Fits(norm, b)
              then Later(total + |b|, RunBatches(UpsertAll(t, RowsOf(norm, b)), norm, From(rows, i + UPSERT_BATCH_SIZE)))
              else (t, Err(BatchRejected))
    {
      hide Fits, RowsOf, UpsertAll;
      var next := if i + UPSERT_BATCH_SIZE < |rows| then i + UPSERT_BATCH_SIZE else |rows|;
      assert rows[i..next] == Batch(rows[i..]) && rows[i..][next - i..] == rows[next..];
      assert rows[next..] == From(rows, i + UPSERT_BATCH_SIZE);
    }

    static function Later(total: nat, rest: (Table, Result<nat, UpsertError>)): (Table, Result<nat, UpsertError>) {
      (rest.0, match rest.1 case Ok(n) => Ok(total + n) case Err(e) => Err(e))
    }

    /** Keeping a fresh answer under the key of the current version keeps the cache coherent. */
    ghost predicate KeptFresh(r: Request, before: map<string, Answer>)
      reads this, cache
      requires Clean(r)
    {
      var key := BuildCacheKey(cache.Version(BuildVersionKey(r.scope)), r);
      cache.entries == before ||
      (key in cache.entries && cache.entries == before[key := AnswerFor(TableOf(r.scope), r)])
    }

    twostate lemma CoherentAgain(r: Request)
      requires Clean(r) && old(Coherent()) && KeptFresh(r, old(cache.entries))
      requires cache.versions == old(cache.versions) && db == old(db) && asked == old(asked) + {r}
      ensures Coherent()
    {
      hide AnswerFor, BuildCacheKey, BuildVersionKey, CleanScope, ParseDate, YearOf;
      var version := cache.Version(BuildVersionKey(r.scope));
      forall v: nat, q: Request | Clean(q) && BuildCacheKey(v, q) in cache.entries
        ensures v <= cache.Version(BuildVersionKey(q.scope))
        ensures v == cache.Version(BuildVersionKey(q.scope)) ==> Right(q, cache.entries[BuildCacheKey(v, q)])
      {
        CacheKeyExact(v, q, version, r);
      }
    }

    method GetMetrics(scope: Scope, from: string, to: string, metricKeys: seq<string>,
                      granularity: Granularity, aggregate: Aggregate)
      returns (rows: seq<PeriodRow>)
      requires Clean(ChartRequest(scope, from, to, metricKeys, aggregate, granularity)) && Coherent()
      modifies cache`entries, this`asked
      ensures var req := ChartRequest(scope, from, to, metricKeys, aggregate, granularity);
              Coherent() && asked == old(asked) + {req} && Right(req, Series(rows))
              && (old(Alone(req)) ==> rows == Chart(TableOf(scope), Filter(DayOf(from), DayOf(to), metricKeys), granularity, aggregate))
    {
      hide ParseDate, LabelDays, ChartRows, BuildCacheKey, BuildVersionKey, Clean, QueryTimeSeries, AllKeys, OneOf, Alone, Coherent;
      var req := ChartRequest(scope, from, to, metricKeys, aggregate, granularity);
      CleanDates(req);
      var version := cache.GetVersion(BuildVersionKey(scope));
      var key := BuildCacheKey(version, req);
      var cached := cache.Get(key);
      if cached.Some? {
        Cached(version, req);
        rows := cached.value.rows;
      } else {
        var f := Filter(DayOf(from), DayOf(to), metricKeys);
        var raw := QueryTimeSeries(TableOf(scope), f, granularity, aggregate);
        rows := FillMissingPeriods(raw, from, to, granularity, metricKeys);
        QueryIsTimeSeries(TableOf(scope), f, granularity, aggregate);
        FilledIsChart(raw, TableOf(scope), f, granularity, aggregate, rows);
        cache.Keep(key, Series(rows));
      }
      OneOfMore(asked, TableOf(scope), req, Series(rows));
      asked := asked + {req};
      CoherentAgain(req);
    }

    method GetMetricSummary(scope: Scope, from: string, to: string, metricKeys: seq<string>, aggregate: Aggregate)
      returns (metrics: map<string, real>)
      requires Clean(CardRequest(scope, from, to, metricKeys, aggregate)) && Coherent()
      modifies cache`entries, this`asked
      ensures var req := CardRequest(scope, from, to, metricKeys, aggregate);
              Coherent() && asked == old(asked) + {req} && Right(req, Totals(metrics))
              && (old(Alone(req)) ==> metrics == QuerySummary(TableOf(scope), Filter(DayOf(from), DayOf(to), metricKeys), aggregate))
    {
      hide ParseDate, BuildCacheKey, BuildVersionKey, Clean, QuerySummary, OneOf, Alone, Coherent;
      var req := CardRequest(scope, from, to, metricKeys, aggregate);
      CleanDates(req);
      var version := cache.GetVersion(BuildVersionKey(scope));
      var table := TableOf(scope);
      var f := Filter(DayOf(from), DayOf(to), metricKeys);
      if BuildCacheKey(version, req) in cache.entries { Cached(version, req); }
      var answer := cache.GetOrSet(BuildCacheKey(version, req), () => Totals(QuerySummary(table, f, aggregate)));
      OneOfMore(asked, table, req, answer);
      asked := asked + {req};
      CoherentAgain(req);
      metrics := answer.metrics;
    }

    /** What a hit at the current version gives. */
    lemma Cached(version: nat, r: Request)
      requires Clean(r) && Coherent() && version == cache.Version(BuildVersionKey(r.scope))
      requires BuildCacheKey(version, r) in cache.entries
      ensures var answer := cache.entries[BuildCacheKey(version, r)];
              Right(r, answer) && (answer.Series? <==> r.ChartRequest?) &&
              (Alone(r) ==> answer == AnswerFor(TableOf(r.scope), r))
    {
      hide BuildCacheKey, BuildVersionKey, Clean, OneOf, Rival, AnswerFor;
      CleanDates(r);
      assert Right(r, cache.entries[BuildCacheKey(version, r)]);
      OneOfOwn(asked, TableOf(r.scope), r, cache.entries[BuildCacheKey(version, r)]);
    }

    static lemma OneOfOwn(questions: set<Request>, t: Table, r: Request, answer: Answer)
      requires Clean(r) && OneOf(questions, t, r, answer)
      ensures answer.Series? <==> r.ChartRequest?
      ensures IsDate(r.from) && IsDate(r.to) && ((forall q :: q in questions ==> !Rival(q, r)) ==> answer == AnswerFor(t, r))
    {
      hide ParseDate, YearOf, CleanScope, KeyPieces, KeySet, Chart, QuerySummary;
      var q :| q in questions && SharesKey(q, r) && answer == AnswerFor(t, q);
      if !Rival(q, r) { SameQuestionSameAnswer(t, q, r); }
    }

    static lemma OneOfMore(questions: set<Request>, t: Table, r: Request, answer: Answer)
      requires Clean(r) && IsDate(r.from) && IsDate(r.to)
      requires OneOf(questions, t, r, answer) || answer == AnswerFor(t, r)
      ensures OneOf(questions + {r}, t, r, answer)
    {
      hide AnswerFor, KeyPieces, Clean;
      assert SharesKey(r, r);
      if answer == AnswerFor(t, r) { assert r in questions + {r}; }
    }

    static lemma CleanDates(r: Request)
      requires Clean(r)
      ensures IsDate(r.from) && IsDate(r.to)
      ensures SqlRange(FilterOf(r))
    {
      hide ParseDate, YearOf;
      ParsedYear(r.from);
      ParsedYear(r.to);
    }
  }
}
