/**
 Stored metric values of one tenant, campaign and platform: the bulk upsert that writes them, the two
 SQL queries that read them and the zero filling of the chart.
 */
module Metrics {
  import opened Options
  import opened Calendar
  import opened Periods

  datatype Scope = Scope(tenant: string, campaign: string, platform: string)

  datatype Row = Row(metric: string, day: int, dimKey: Option<string>, dimVal: Option<string>, value: real)

  /** The unique index: absent dimensions compare as empty strings. */
  datatype RowKey = RowKey(metric: string, day: int, dimKey: string, dimVal: string)

  type Table = seq<Row>

  function KeyOf(r: Row): RowKey { RowKey(r.metric, r.day, r.dimKey.GetOr(""), r.dimVal.GetOr("")) }

  predicate Distinct(t: Table) { forall i, j :: 0 <= i < j < |t| ==> KeyOf(t[i]) != KeyOf(t[j]) }

  // ---------- upsert ----------

  /** INSERT ... ON CONFLICT DO UPDATE SET value of one row. */
  function Upsert(t: Table, r: Row): (u: Table)
    ensures |u| > 0
  {
    if t == [] then [r]
    else if KeyOf(t[0]) == KeyOf(r) then [t[0].(value := r.value)] + t[1..]
    else [t[0]] + Upsert(t[1..], r)
  }

  function UpsertAll(t: Table, rows: seq<Row>): Table
    decreases |rows|
  {
    if rows == [] then t else UpsertAll(Upsert(t, rows[0]), rows[1..])
  }

  /** The table as a map from conflict keys to values. */
  function Contents(t: Table): map<RowKey, real> {
    if t == [] then map[] else Contents(t[1..])[KeyOf(t[0]) := t[0].value]
  }

  function Override(m: map<RowKey, real>, rows: seq<Row>): map<RowKey, real>
    decreases |rows|
  {
    if rows == [] then m else Override(m[KeyOf(rows[0]) := rows[0].value], rows[1..])
  }

  lemma {:induction false} ContentsKeys(t: Table)
    ensures forall k :: k in Contents(t) <==> exists i :: 0 <= i < |t| && KeyOf(t[i]) == k
  {
    if t != [] {
      ContentsKeys(t[1..]);
      forall k ensures k in Contents(t) <==> exists i :: 0 <= i < |t| && KeyOf(t[i]) == k {
        if k in Contents(t[1..]) {
          var i :| 0 <= i < |t[1..]| && KeyOf(t[1..][i]) == k;
          assert KeyOf(t[i + 1]) == k;
        }
        if i :| 0 <= i < |t| && KeyOf(t[i]) == k {
          if i > 0 { assert KeyOf(t[1..][i - 1]) == k; }
        }
      }
    }
  }

  lemma {:induction false} UpsertOverrides(t: Table, r: Row)
    requires Distinct(t)
    ensures Distinct(Upsert(t, r)) && Contents(Upsert(t, r)) == Contents(t)[KeyOf(r) := r.value]
    ensures forall i :: 0 <= i < |Upsert(t, r)| ==>
              KeyOf(Upsert(t, r)[i]) == KeyOf(r) || exists j :: 0 <= j < |t| && KeyOf(t[j]) == KeyOf(Upsert(t, r)[i])
  {
    if t != [] && KeyOf(t[0]) == KeyOf(r) {
      var u := Upsert(t, r);
      assert u[1..] == t[1..];
      forall i | 0 <= i < |u|
        ensures KeyOf(u[i]) == KeyOf(t[i])
      {
      }
    } else if t != [] {
      var rest := t[1..];
      UpsertOverrides(rest, r);
      var u := Upsert(rest, r);
      assert Upsert(t, r)[1..] == u;
      forall i | 0 <= i < |u|
        ensures KeyOf(u[i]) != KeyOf(t[0])
        ensures KeyOf(u[i]) == KeyOf(r) || exists j :: 0 <= j < |t| && KeyOf(t[j]) == KeyOf(u[i])
      {
        if KeyOf(u[i]) != KeyOf(r) {
          var j :| 0 <= j < |rest| && KeyOf(rest[j]) == KeyOf(u[i]);
          assert t[j + 1] == rest[j];
        }
      }
    }
  }

  /** The upsert of a batch is the old table overridden row by row in input order. */
  lemma {:induction false} UpsertAllOverrides(t: Table, rows: seq<Row>)
    requires Distinct(t)
    ensures Distinct(UpsertAll(t, rows)) && Contents(UpsertAll(t, rows)) == Override(Contents(t), rows)
    decreases |rows|
  {
    if rows != [] {
      UpsertOverrides(t, rows[0]);
      UpsertAllOverrides(Upsert(t, rows[0]), rows[1..]);
    }
  }

  /** The value the last row with key k carries. */
  function LastValue(rows: seq<Row>, k: RowKey): Option<real> {
    if rows == [] then None
    else if KeyOf(rows[|rows| - 1]) == k then Some(rows[|rows| - 1].value)
    else LastValue(rows[..|rows| - 1], k)
  }

  lemma {:induction false} OverrideAppend(m: map<RowKey, real>, rows: seq<Row>, r: Row)
    ensures Override(m, rows + [r]) == Override(m, rows)[KeyOf(r) := r.value]
    decreases |rows|
  {
    if rows == [] {
      assert (rows + [r])[1..] == [];
    } else {
      OverrideAppend(m[KeyOf(rows[0]) := rows[0].value], rows[1..], r);
      assert (rows + [r])[1..] == rows[1..] + [r];
    }
  }

  lemma {:induction false} OverrideAt(m: map<RowKey, real>, rows: seq<Row>, k: RowKey)
    ensures k in Override(m, rows) <==> k in m || LastValue(rows, k).Some?
    ensures k in Override(m, rows) ==>
              Override(m, rows)[k] == if LastValue(rows, k).Some? then LastValue(rows, k).value else m[k]
    decreases |rows|
  {
    if rows != [] {
      var n := |rows| - 1;
      OverrideAt(m, rows[..n], k);
      OverrideAppend(m, rows[..n], rows[n]);
      assert rows[..n] + [rows[n]] == rows;
    }
  }

  lemma OverrideTwice(m: map<RowKey, real>, rows: seq<Row>)
    ensures Override(Override(m, rows), rows) == Override(m, rows)
  {
    hide Override, LastValue;
    var once := Override(m, rows);
    forall k
      ensures k in Override(once, rows) <==> k in once
      ensures k in once ==> Override(once, rows)[k] == once[k]
    {
      OverrideAt(m, rows, k);
      OverrideAt(once, rows, k);
    }
  }

  /** Repeating a statement changes no value. */
  lemma UpsertAllIdempotent(t: Table, rows: seq<Row>)
    requires Distinct(t)
    ensures Contents(UpsertAll(UpsertAll(t, rows), rows)) == Contents(UpsertAll(t, rows))
  {
    hide Override, UpsertAll, Contents;
    UpsertAllOverrides(t, rows);
    UpsertAllOverrides(UpsertAll(t, rows), rows);
    OverrideTwice(Contents(t), rows);
  }

  lemma {:induction false} UpsertAllConcat(t: Table, a: seq<Row>, b: seq<Row>)
    ensures UpsertAll(t, a + b) == UpsertAll(UpsertAll(t, a), b)
    decreases |a|
  {
    if a == [] {
      assert a + b == b;
    } else {
      assert (a + b)[1..] == a[1..] + b;
      UpsertAllConcat(Upsert(t, a[0]), a[1..], b);
    }
  }

  // ---------- input rows ----------

  datatype RowInput = RowInput(metricKey: string, value: string, recordedAt: string,
                               dimensionKey: Option<string>, dimensionVal: Option<string>)

  /**
   One platform's normalizeMetricValue with the cast to decimal(20,6), and whether the columns take what it
   gives: the widths of the keys and dimensions, the range of the decimal, a value that is a number. Any
   function and any test.
   */
  datatype Normalizer = Normalizer(convert: (string, string) -> (string, real), accepts: RowInput -> bool)

  predicate IsSpace(c: char) { c in [' ', '\t', '\n', '\r'] }

  function TrimStart(s: string): string {
    if s != "" && IsSpace(s[0]) then TrimStart(s[1..]) else s
  }

  function TrimEnd(s: string): string {
    if s != "" && IsSpace(s[|s| - 1]) then TrimEnd(s[..|s| - 1]) else s
  }

  /** dimension?.trim() || null */
  function Dimension(d: Option<string>): Option<string> {
    if d.None? then None else
    var s := TrimEnd(TrimStart(d.value));
    if s == "" then None else Some(s)
  }

  /** A date PostgreSQL accepts: unlike JavaScript it has no year 0. */
  predicate IsSqlDate(s: string) { IsDate(s) && YearOf(DayOf(s)) >= 1 }

  function RowOf(norm: Normalizer, x: RowInput): Option<Row> {
    var (metric, value) := norm.convert(x.metricKey, x.value);
    var recordedAt := if |x.recordedAt| > 10 then x.recordedAt[..10] else x.recordedAt;
    if IsSqlDate(recordedAt) && norm.accepts(x) then
      Some(Row(metric, DayOf(recordedAt), Dimension(x.dimensionKey), Dimension(x.dimensionVal), value))
    else None
  }

  /** The rows of well-formed inputs; ill-formed ones are skipped here and rejected by Fits. */
  function RowsOf(norm: Normalizer, xs: seq<RowInput>): seq<Row> {
    if xs == [] then [] else
    (match RowOf(norm, xs[0]) case Some(r) => [r] case None => []) + RowsOf(norm, xs[1..])
  }

  /** One statement accepts a batch of acceptable, non-negative rows that hit no key twice. */
  predicate Fits(norm: Normalizer, xs: seq<RowInput>) {
    (forall i :: 0 <= i < |xs| ==> RowOf(norm, xs[i]).Some?) &&
    Distinct(RowsOf(norm, xs)) &&
    forall i :: 0 <= i < |RowsOf(norm, xs)| ==> RowsOf(norm, xs)[i].value >= 0.0
  }

  lemma {:induction false} RowsOfLength(norm: Normalizer, xs: seq<RowInput>)
    requires forall i :: 0 <= i < |xs| ==> RowOf(norm, xs[i]).Some?
    ensures |RowsOf(norm, xs)| == |xs|
    ensures forall i :: 0 <= i < |xs| ==> RowsOf(norm, xs)[i] == RowOf(norm, xs[i]).value
  {
    if xs != [] { RowsOfLength(norm, xs[1..]); }
  }

  lemma {:induction false} RowsOfConcat(norm: Normalizer, a: seq<RowInput>, b: seq<RowInput>)
    ensures RowsOf(norm, a + b) == RowsOf(norm, a) + RowsOf(norm, b)
  {
    hide RowOf;
    if a == [] {
      assert a + b == b;
    } else {
      assert (a + b)[1..] == a[1..] + b;
      RowsOfConcat(norm, a[1..], b);
    }
  }

  // ---------- the parameters of one upsert statement ----------

  datatype SqlParam = SqlText(text: string) | SqlNumber(number: real) | SqlNull

  function Nullable(d: Option<string>): SqlParam {
    match d case Some(s) => SqlText(s) case None => SqlNull
  }

  function ParamsOf(scope: Scope, norm: Normalizer, x: RowInput): (ps: seq<SqlParam>)
    ensures |ps| == 8
  {
    var (metric, value) := norm.convert(x.metricKey, x.value);
    var recordedAt := if |x.recordedAt| > 10 then x.recordedAt[..10] else x.recordedAt;
    [SqlText(scope.tenant), SqlText(scope.campaign), SqlText(scope.platform), SqlText(metric), SqlText(recordedAt),
     SqlNumber(value), Nullable(Dimension(x.dimensionKey)), Nullable(Dimension(x.dimensionVal))]
  }

  /** What `$k` refers to; SQL counts parameters from 1. */
  function Cell(params: seq<SqlParam>, k: nat): SqlParam {
    if 1 <= k <= |params| then params[k - 1] else SqlNull
  }

  /**
   The statement builder of upsertBatch. Resolving the eight placeholders of row i in the flat
   parameter list gives back the fields of row i, so no value lands in another column or row.
   */
  method BuildUpsert(scope: Scope, norm: Normalizer, rows: seq<RowInput>)
    returns (placeholders: seq<seq<nat>>, params: seq<SqlParam>)
    ensures |placeholders| == |rows| && |params| == 8 * |rows|
    ensures forall i :: 0 <= i < |rows| ==> |placeholders[i]| == 8
    ensures forall i, j :: 0 <= i < |rows| && 0 <= j < 8 ==>
              Cell(params, placeholders[i][j]) == ParamsOf(scope, norm, rows[i])[j]
  {
    hide ParamsDone, Cell;
    placeholders, params := [], [];
    NoParams(scope, norm, rows);
    var pi: nat := 1;
    for n := 0 to |rows|
      invariant |placeholders| == n && |params| == 8 * n && pi == 8 * n + 1
      invariant forall i :: 0 <= i < n ==> placeholders[i] == Slots(8 * i + 1)
      invariant ParamsDone(scope, norm, rows, n, params)
    {
      placeholders := placeholders + [[pi, pi + 1, pi + 2, pi + 3, pi + 4, pi + 5, pi + 6, pi + 7]];
      ghost var before := params;
      params := params + ParamsOf(scope, norm, rows[n]);
      pi := pi + 8;
      ParamsGrow(scope, norm, rows, n, before);
    }
    forall i, j | 0 <= i < |rows| && 0 <= j < 8
      ensures Cell(params, placeholders[i][j]) == ParamsOf(scope, norm, rows[i])[j]
    {
      assert placeholders[i] == Slots(8 * i + 1);
      CellOfRow(scope, norm, rows, params, i, j);
    }
  }

  ghost predicate ParamsDone(scope: Scope, norm: Normalizer, rows: seq<RowInput>, n: nat, params: seq<SqlParam>) {
    n <= |rows| && |params| == 8 * n &&
    forall i, j :: 0 <= i < n && 0 <= j < 8 ==> params[8 * i + j] == ParamsOf(scope, norm, rows[i])[j]
  }

  lemma NoParams(scope: Scope, norm: Normalizer, rows: seq<RowInput>)
    ensures ParamsDone(scope, norm, rows, 0, [])
  {
  }

  lemma ParamsGrow(scope: Scope, norm: Normalizer, rows: seq<RowInput>, n: nat, params: seq<SqlParam>)
    requires n < |rows| && ParamsDone(scope, norm, rows, n, params)
    ensures ParamsDone(scope, norm, rows, n + 1, params + ParamsOf(scope, norm, rows[n]))
  {
    hide Dimension, Nullable;
    var after := params + ParamsOf(scope, norm, rows[n]);
    forall i, j | 0 <= i < n + 1 && 0 <= j < 8 ensures after[8 * i + j] == ParamsOf(scope, norm, rows[i])[j] {
      if i < n { assert after[8 * i + j] == params[8 * i + j]; }
    }
  }

  lemma CellOfRow(scope: Scope, norm: Normalizer, rows: seq<RowInput>, params: seq<SqlParam>, i: nat, j: nat)
    requires ParamsDone(scope, norm, rows, |rows|, params) && i < |rows| && j < 8
    ensures Cell(params, 8 * i + j + 1) == ParamsOf(scope, norm, rows[i])[j]
  {
    hide Dimension, Nullable;
    assert 8 * i + j < |params|;
  }

  ghost function Slots(k: nat): (s: seq<nat>)
    ensures |s| == 8 && forall j :: 0 <= j < 8 ==> s[j] == k + j
  {
    [k, k + 1, k + 2, k + 3, k + 4, k + 5, k + 6, k + 7]
  }

  // ---------- the batches of upsertMetrics ----------

  const UPSERT_BATCH_SIZE := 500

  datatype UpsertError = BatchRejected

  function Batch(xs: seq<RowInput>): (b: seq<RowInput>)
    ensures |b| <= |xs| && (xs != [] ==> b != [])
  {
    if |xs| < UPSERT_BATCH_SIZE then xs else xs[..UPSERT_BATCH_SIZE]
  }

  /** The table after the committed batches and the outcome of the call. */
  function RunBatches(t: Table, norm: Normalizer, xs: seq<RowInput>): (Table, Result<nat, UpsertError>)
    decreases |xs|
  {
    if xs == [] then (t, Ok(0))
    else if !Fits(norm, Batch(xs)) then (t, Err(BatchRejected))
    else
      var b := Batch(xs);
      var (u, r) := RunBatches(UpsertAll(t, RowsOf(norm, b)), norm, xs[|b|..]);
      (u, match r case Ok(n) => Ok(|b| + n) case Err(e) => Err(e))
  }

  predicate AllFit(norm: Normalizer, xs: seq<RowInput>)
    decreases |xs|
  {
    xs == [] || (Fits(norm, Batch(xs)) && AllFit(norm, xs[|Batch(xs)|..]))
  }

  /** u holds t overridden by the first n input rows. */
  ghost predicate Committed(t: Table, u: Table, norm: Normalizer, xs: seq<RowInput>, n: int) {
    0 <= n <= |xs| && Contents(u) == Override(Contents(t), RowsOf(norm, xs[..n]))
  }

  /** How many rows a call commits: those of the batches before the first that does not fit. */
  function CommittedCount(norm: Normalizer, xs: seq<RowInput>): (n: nat)
    ensures n <= |xs|
    decreases |xs|
  {
    if xs == [] || !Fits(norm, Batch(xs)) then 0 else |Batch(xs)| + CommittedCount(norm, xs[|Batch(xs)|..])
  }

  /** u and r are the fold over all rows, or over the whole batches before the first unfit one. */
  ghost predicate IsFold(t: Table, u: Table, r: Result<nat, UpsertError>, norm: Normalizer, xs: seq<RowInput>) {
    var n := CommittedCount(norm, xs);
    Committed(t, u, norm, xs, n)
    && if AllFit(norm, xs) then r == Ok(|xs|) && n == |xs|
       else r == Err(BatchRejected) && n < |xs| && n % UPSERT_BATCH_SIZE == 0
  }

  /**
   Batching is invisible when every batch fits: the result is the plain fold over all rows and the
   count is their number. Otherwise the committed part is the fold over the rows before the first
   batch that does not fit, a whole number of batches.
   */
  lemma {:induction false} BatchesAreFold(t: Table, norm: Normalizer, xs: seq<RowInput>)
    requires Distinct(t)
    ensures Distinct(RunBatches(t, norm, xs).0)
    ensures IsFold(t, RunBatches(t, norm, xs).0, RunBatches(t, norm, xs).1, norm, xs)
    decreases |xs|
  {
    hide Fits, Override, RowsOf, Contents, UpsertAll, Committed;
    if xs == [] {
      NothingCommitted(t, norm, xs);
    } else if Fits(norm, Batch(xs)) {
      var b := Batch(xs);
      var rest := xs[|b|..];
      assert xs[..|b|] == b;
      var t1 := UpsertAll(t, RowsOf(norm, b));
      UpsertAllOverrides(t, RowsOf(norm, b));
      BatchesAreFold(t1, norm, rest);
      CommittedLater(t, t1, RunBatches(t1, norm, rest).0, norm, xs, |b|, CommittedCount(norm, rest));
    } else {
      NothingCommitted(t, norm, xs);
    }
  }

  /** Repeating a whole call changes no value, also when it is rejected part way. */
  lemma CallIdempotent(t: Table, norm: Normalizer, xs: seq<RowInput>)
    requires Distinct(t)
    ensures var u := RunBatches(t, norm, xs).0; Contents(RunBatches(u, norm, xs).0) == Contents(u)
  {
    hide Fits, Override, RowsOf, Contents, RunBatches, AllFit, CommittedCount;
    var u := RunBatches(t, norm, xs).0;
    BatchesAreFold(t, norm, xs);
    BatchesAreFold(u, norm, xs);
    OverrideTwice(Contents(t), RowsOf(norm, xs[..CommittedCount(norm, xs)]));
  }

  lemma NothingCommitted(t: Table, norm: Normalizer, xs: seq<RowInput>)
    ensures Committed(t, t, norm, xs, 0)
  {
  }

  lemma CommittedLater(t: Table, t1: Table, u: Table, norm: Normalizer, xs: seq<RowInput>, m: nat, n: int)
    requires m <= |xs| && Contents(t1) == Override(Contents(t), RowsOf(norm, xs[..m]))
    requires Committed(t1, u, norm, xs[m..], n)
    ensures Committed(t, u, norm, xs, m + n)
  {
    hide RowsOf, Contents, Override;
    assert xs[..m + n] == xs[..m] + xs[m..][..n];
    OverrideRows(Contents(t), norm, xs[..m], xs[m..][..n]);
  }

  lemma OverrideRows(m: map<RowKey, real>, norm: Normalizer, a: seq<RowInput>, b: seq<RowInput>)
    ensures Override(m, RowsOf(norm, a + b)) == Override(Override(m, RowsOf(norm, a)), RowsOf(norm, b))
  {
    hide RowsOf, Override;
    RowsOfConcat(norm, a, b);
    OverrideConcat(m, RowsOf(norm, a), RowsOf(norm, b));
  }

  lemma {:induction false} OverrideConcat(m: map<RowKey, real>, a: seq<Row>, b: seq<Row>)
    ensures Override(m, a + b) == Override(Override(m, a), b)
    decreases |a|
  {
    if a == [] {
      assert a + b == b;
    } else {
      assert (a + b)[1..] == a[1..] + b;
      OverrideConcat(m[KeyOf(a[0]) := a[0].value], a[1..], b);
    }
  }

  // ---------- the SQL queries ----------

  datatype Aggregate = SUM | AVG | LAST

  /** The WHERE clause below the scope: an inclusive day range and an optional list of metrics. */
  datatype Filter = Filter(from: int, to: int, keys: seq<string>)

  predicate Matches(r: Row, f: Filter) {
    f.from <= r.day <= f.to && (f.keys == [] || r.metric in f.keys)
  }

  function Values(t: Table, f: Filter, k: string): seq<real> {
    if t == [] then [] else
    (if Matches(t[0], f) && t[0].metric == k then [t[0].value] else []) + Values(t[1..], f, k)
  }

  function GroupValues(t: Table, f: Filter, g: Granularity, k: string, p: int): seq<real> {
    if t == [] then [] else
    (if Matches(t[0], f) && t[0].metric == k && Trunc(t[0].day, g) == p then [t[0].value] else []) +
    GroupValues(t[1..], f, g, k, p)
  }

  function Present(t: Table, f: Filter): set<string> { set r | r in t && Matches(r, f) :: r.metric }

  function Total(vs: seq<real>): real { if vs == [] then 0.0 else vs[0] + Total(vs[1..]) }

  function AggregateOf(vs: seq<real>, agg: Aggregate): real
    requires vs != []
  {
    if agg == AVG then Total(vs) / |vs| as real else Total(vs)
  }

  lemma {:induction false} PresentHasValues(t: Table, f: Filter, k: string)
    ensures k in Present(t, f) <==> Values(t, f, k) != []
  {
    if t != [] {
      PresentHasValues(t[1..], f, k);
      assert t == [t[0]] + t[1..];
    }
  }

  /** The row DISTINCT ON keeps: the latest one without dimensions. */
  function Latest(t: Table, f: Filter, k: string): Option<Row> {
    if t == [] then None else
    var rest := Latest(t[1..], f, k);
    if Matches(t[0], f) && t[0].metric == k && t[0].dimKey.None? && t[0].dimVal.None? &&
       (rest.None? || rest.value.day < t[0].day)
    then Some(t[0]) else rest
  }

  function QuerySummary(t: Table, f: Filter, agg: Aggregate): map<string, real> {
    if agg == LAST then
      map k | k in Present(t, f) && Latest(t, f, k).Some? :: Latest(t, f, k).value.value
    else
      map k | k in Present(t, f) :: (PresentHasValues(t, f, k); AggregateOf(Values(t, f, k), agg))
  }

  datatype SeriesRow = SeriesRow(period: string, metric: string, value: real)

  /** GROUP BY period, metric_key: one row for every group that holds a value, in any order. */
  ghost predicate IsTimeSeries(rows: seq<SeriesRow>, t: Table, f: Filter, g: Granularity, agg: Aggregate) {
    (forall i :: 0 <= i < |rows| ==> IsGroupRow(rows[i], t, f, g, agg)) &&
    (forall p, k :: GroupValues(t, f, g, k, p) != [] ==>
       SeriesRow(IsoDate(p), k, AggregateOf(GroupValues(t, f, g, k, p), agg)) in rows)
  }

  ghost predicate IsGroupRow(row: SeriesRow, t: Table, f: Filter, g: Granularity, agg: Aggregate) {
    exists p :: row.period == IsoDate(p) && GroupValues(t, f, g, row.metric, p) != [] &&
                row.value == AggregateOf(GroupValues(t, f, g, row.metric, p), agg)
  }

  function Groups(t: Table, f: Filter, g: Granularity): seq<(int, string)> {
    if t == [] then [] else
    var rest := Groups(t[1..], f, g);
    var group := (Trunc(t[0].day, g), t[0].metric);
    if Matches(t[0], f) && group !in rest then [group] + rest else rest
  }

  lemma {:induction false} GroupsComplete(t: Table, f: Filter, g: Granularity, p: int, k: string)
    ensures (p, k) in Groups(t, f, g) <==> GroupValues(t, f, g, k, p) != []
  {
    hide Trunc, Matches;
    if t != [] { GroupsComplete(t[1..], f, g, p, k); }
  }

  function GroupRow(t: Table, f: Filter, g: Granularity, agg: Aggregate, group: (int, string)): SeriesRow {
    SeriesRow(IsoDate(group.0), group.1, GroupValue(t, f, g, agg, group.1, group.0))
  }

  function QueryTimeSeries(t: Table, f: Filter, g: Granularity, agg: Aggregate): (rows: seq<SeriesRow>)
    ensures |rows| == |Groups(t, f, g)|
  {
    seq(|Groups(t, f, g)|, i requires 0 <= i < |Groups(t, f, g)| => GroupRow(t, f, g, agg, Groups(t, f, g)[i]))
  }

  lemma QueryIsTimeSeries(t: Table, f: Filter, g: Granularity, agg: Aggregate)
    ensures IsTimeSeries(QueryTimeSeries(t, f, g, agg), t, f, g, agg)
  {
    hide IsoDate, Groups, GroupValues;
    var rows, groups := QueryTimeSeries(t, f, g, agg), Groups(t, f, g);
    forall i | 0 <= i < |rows| ensures IsGroupRow(rows[i], t, f, g, agg) {
      var (p, k) := groups[i];
      assert (p, k) in groups;
      GroupsComplete(t, f, g, p, k);
      assert rows[i] == GroupRow(t, f, g, agg, (p, k));
    }
    forall p, k | GroupValues(t, f, g, k, p) != []
      ensures SeriesRow(IsoDate(p), k, AggregateOf(GroupValues(t, f, g, k, p), agg)) in rows
    {
      GroupsComplete(t, f, g, p, k);
      var i :| 0 <= i < |groups| && groups[i] == (p, k);
      assert rows[i] == GroupRow(t, f, g, agg, (p, k));
    }
  }

  lemma {:induction false} GroupsDistinct(t: Table, f: Filter, g: Granularity)
    ensures forall i, j :: 0 <= i < j < |Groups(t, f, g)| ==> Groups(t, f, g)[i] != Groups(t, f, g)[j]
  {
    hide Trunc, Matches;
    if t != [] { GroupsDistinct(t[1..], f, g); }
  }

  /** No period and metric come twice. */
  ghost predicate OneRowEach(rows: seq<SeriesRow>) {
    forall i, j :: 0 <= i < j < |rows| ==> rows[i].period != rows[j].period || rows[i].metric != rows[j].metric
  }

  lemma QueryHasOneRowEach(t: Table, f: Filter, g: Granularity, agg: Aggregate)
    requires SqlRange(f)
    ensures OneRowEach(QueryTimeSeries(t, f, g, agg))
  {
    hide IsoDate, Groups, GroupValues, GroupValue, YearOf, Trunc;
    var rows, groups := QueryTimeSeries(t, f, g, agg), Groups(t, f, g);
    GroupsDistinct(t, f, g);
    forall i, j | 0 <= i < j < |rows| ensures rows[i].period != rows[j].period || rows[i].metric != rows[j].metric {
      GroupInSqlYears(t, f, g, i);
      GroupInSqlYears(t, f, g, j);
      if IsoDate(groups[i].0) == IsoDate(groups[j].0) { IsoDateInjective(groups[i].0, groups[j].0); }
    }
  }

  lemma GroupInSqlYears(t: Table, f: Filter, g: Granularity, i: nat)
    requires SqlRange(f) && i < |Groups(t, f, g)|
    ensures 1 <= YearOf(Groups(t, f, g)[i].0) <= 9999
  {
    hide Groups, GroupValues, YearOf;
    var (p, k) := Groups(t, f, g)[i];
    assert (p, k) in Groups(t, f, g);
    GroupsComplete(t, f, g, p, k);
    GroupYears(t, f, g, k, p);
  }

  // ---------- zero filling ----------

  datatype PeriodRow = PeriodRow(period: string, metrics: map<string, real>)

  function GroupValue(t: Table, f: Filter, g: Granularity, agg: Aggregate, k: string, p: int): real {
    var vs := GroupValues(t, f, g, k, p);
    if vs == [] then 0.0 else AggregateOf(vs, agg)
  }

  function AllKeys(t: Table, f: Filter): set<string> { (set k | k in f.keys) + Present(t, f) }

  function ChartRow(t: Table, f: Filter, g: Granularity, agg: Aggregate, p: int): PeriodRow {
    PeriodRow(IsoDate(p), map k | k in AllKeys(t, f) :: GroupValue(t, f, g, agg, k, p))
  }

  function ChartRows(t: Table, f: Filter, g: Granularity, agg: Aggregate, days: seq<int>): (rows: seq<PeriodRow>)
    ensures |rows| == |days|
    ensures forall i :: 0 <= i < |days| ==> rows[i] == ChartRow(t, f, g, agg, days[i])
  {
    if days == [] then [] else [ChartRow(t, f, g, agg, days[0])] + ChartRows(t, f, g, agg, days[1..])
  }

  /** The chart: every label of the range with the value of its group for every key, zero if empty. */
  function Chart(t: Table, f: Filter, g: Granularity, agg: Aggregate): seq<PeriodRow> {
    ChartRows(t, f, g, agg, LabelDays(f.from, f.to, g))
  }

  /** dataMap.get(period)?.[k] ?? 0 after the rows were entered one by one. */
  function Lookup(rows: seq<SeriesRow>, period: string, k: string): real {
    if rows == [] then 0.0 else
    var last := rows[|rows| - 1];
    if last.period == period && last.metric == k then last.value else Lookup(rows[..|rows| - 1], period, k)
  }

  function Entry(dataMap: map<string, map<string, real>>, period: string, k: string): real {
    if period in dataMap && k in dataMap[period] then dataMap[period][k] else 0.0
  }

  function SeenKeys(rows: seq<SeriesRow>, keys: seq<string>): set<string> {
    (set k | k in keys) + set r | r in rows :: r.metric
  }

  method FillMissingPeriods(rows: seq<SeriesRow>, from: string, to: string, g: Granularity, metricKeys: seq<string>)
    returns (filled: seq<PeriodRow>)
    requires (IsDate(from) || HasTime(from)) && (IsDate(to) || HasTime(to))
    ensures |filled| == |LabelledDays(from, to, g)|
    ensures forall i :: 0 <= i < |filled| ==>
              filled[i].period == IsoDate(LabelledDays(from, to, g)[i]) &&
              filled[i].metrics == map k | k in SeenKeys(rows, metricKeys) :: Lookup(rows, filled[i].period, k)
  {
    hide IsoDate, ParseDate, LabelledDays;
    var dataMap: map<string, map<string, real>> := map[];
    var seenKeys: set<string> := set k | k in metricKeys;
    for n := 0 to |rows|
      invariant seenKeys == SeenKeys(rows[..n], metricKeys)
      invariant forall period, k :: Entry(dataMap, period, k) == Lookup(rows[..n], period, k)
    {
      var row := rows[n];
      ghost var before := dataMap;
      seenKeys := seenKeys + {row.metric};
      if row.period !in dataMap {
        dataMap := dataMap[row.period := map[]];
      }
      dataMap := dataMap[row.period := dataMap[row.period][row.metric := row.value]];
      assert rows[..n + 1] == rows[..n] + [row];
      assert rows[..n + 1][..n] == rows[..n];
      forall period, k
        ensures Entry(dataMap, period, k) ==
                if period == row.period && k == row.metric then row.value else Entry(before, period, k)
      {
      }
    }
    assert rows[..|rows|] == rows;
    var periods := GeneratePeriods(from, to, g);
    filled := seq(|periods|, i requires 0 <= i < |periods| =>
                PeriodRow(periods[i], map k | k in seenKeys :: Entry(dataMap, periods[i], k)));
  }

  // ---------- the filled rows are the chart ----------

  predicate SqlRange(f: Filter) { 1 <= YearOf(f.from) <= 9999 && 1 <= YearOf(f.to) <= 9999 }

  /** The first day SQL can store is a Monday, so no truncation leaves its year. */
  lemma TruncKeepsSqlYears(d: int, g: Granularity)
    requires 1 <= YearOf(d) <= 9999
    ensures 1 <= YearOf(Trunc(d, g)) <= 9999
  {
    hide YearOf, Trunc;
    var first := DayFromYear(1);
    YearStep(1);
    YearOfUnique(first, 1);
    if YearOf(d) > 1 { YearOrder(1, YearOf(d)); }
    FirstDayAligned(g);
    TruncMonotone(first, d, g);
    YearOfMonotone(first, Trunc(d, g));
    TruncBelow(d, g);
    YearOfMonotone(Trunc(d, g), d);
  }

  lemma FirstDayAligned(g: Granularity)
    ensures Trunc(DayFromYear(1), g) == DayFromYear(1)
  {
    hide DayFromYear, MonthIndex;
    DayFromYearClosedForm(1);
    assert DayFromYear(1) == -719162;
    FirstOfMonthIndex(12);
    assert FirstOfMonth(12) == DayFromYear(1);
  }

  lemma {:induction false} GroupDays(t: Table, f: Filter, g: Granularity, k: string, p: int)
    requires GroupValues(t, f, g, k, p) != []
    ensures k in Present(t, f) && exists r :: r in t && Matches(r, f) && r.metric == k && Trunc(r.day, g) == p
  {
    if Matches(t[0], f) && t[0].metric == k && Trunc(t[0].day, g) == p {
      assert t[0] in t;
    } else {
      GroupDays(t[1..], f, g, k, p);
      var r :| r in t[1..] && Matches(r, f) && r.metric == k && Trunc(r.day, g) == p;
      assert r in t;
    }
  }

  lemma GroupYears(t: Table, f: Filter, g: Granularity, k: string, p: int)
    requires SqlRange(f) && GroupValues(t, f, g, k, p) != []
    ensures 1 <= YearOf(p) <= 9999
  {
    hide YearOf, Trunc, GroupValues;
    GroupDays(t, f, g, k, p);
    var r :| r in t && Matches(r, f) && r.metric == k && Trunc(r.day, g) == p;
    YearOfMonotone(f.from, r.day);
    YearOfMonotone(r.day, f.to);
    TruncKeepsSqlYears(r.day, g);
  }

  lemma LabelYears(f: Filter, g: Granularity, p: int)
    requires SqlRange(f) && p in LabelDays(f.from, f.to, g)
    ensures 1 <= YearOf(p) <= 9999
  {
    hide YearOf, Trunc, StartDay, PeriodDays;
    var start := StartDay(f.from, g);
    StartDayTruncates(f.from, g);
    PeriodDaysExact(start, f.to, g);
    TruncBelow(f.from, g);
    assert Trunc(f.from, g) <= start;
    TruncKeepsSqlYears(f.from, g);
    YearOfMonotone(Trunc(f.from, g), p);
    YearOfMonotone(p, f.to);
  }

  lemma IsoDateInjective(a: int, b: int)
    requires 0 <= YearOf(a) <= 9999 && 0 <= YearOf(b) <= 9999 && IsoDate(a) == IsoDate(b)
    ensures a == b
  {
    hide IsoDate, ParseDate;
    ParseIsoDate(a);
    ParseIsoDate(b);
  }

  lemma {:induction false} LookupFinds(rows: seq<SeriesRow>, period: string, k: string)
    ensures (exists v :: SeriesRow(period, k, v) in rows && Lookup(rows, period, k) == v) ||
            ((forall v :: SeriesRow(period, k, v) !in rows) && Lookup(rows, period, k) == 0.0)
  {
    if rows != [] {
      var last := rows[|rows| - 1];
      assert rows == rows[..|rows| - 1] + [last];
      LookupFinds(rows[..|rows| - 1], period, k);
      if last.period == period && last.metric == k {
        assert last == SeriesRow(period, k, last.value);
      }
    }
  }

  lemma LookupIsGroup(rows: seq<SeriesRow>, t: Table, f: Filter, g: Granularity, agg: Aggregate, p: int, k: string)
    requires SqlRange(f) && IsTimeSeries(rows, t, f, g, agg) && p in LabelDays(f.from, f.to, g)
    ensures Lookup(rows, IsoDate(p), k) == GroupValue(t, f, g, agg, k, p)
  {
    hide IsoDate, YearOf, LabelDays, GroupValues, Lookup;
    LabelYears(f, g, p);
    LookupFinds(rows, IsoDate(p), k);
    if v :| SeriesRow(IsoDate(p), k, v) in rows && Lookup(rows, IsoDate(p), k) == v {
      var row := SeriesRow(IsoDate(p), k, v);
      assert IsGroupRow(row, t, f, g, agg);
      var q :| row.period == IsoDate(q) && GroupValues(t, f, g, k, q) != [] &&
               v == AggregateOf(GroupValues(t, f, g, k, q), agg);
      GroupYears(t, f, g, k, q);
      IsoDateInjective(p, q);
    }
  }

  lemma SeenIsAll(rows: seq<SeriesRow>, t: Table, f: Filter, g: Granularity, agg: Aggregate)
    requires IsTimeSeries(rows, t, f, g, agg)
    ensures SeenKeys(rows, f.keys) == AllKeys(t, f)
  {
    hide Trunc, GroupValues, IsoDate;
    forall r | r in rows ensures r.metric in Present(t, f) {
      assert IsGroupRow(r, t, f, g, agg);
      var p :| r.period == IsoDate(p) && GroupValues(t, f, g, r.metric, p) != [];
      GroupDays(t, f, g, r.metric, p);
    }
    forall k | k in Present(t, f) ensures k in SeenKeys(rows, f.keys) {
      var r :| r in t && Matches(r, f) && r.metric == k;
      var p := Trunc(r.day, g);
      HasGroup(t, f, g, r);
      assert SeriesRow(IsoDate(p), k, AggregateOf(GroupValues(t, f, g, k, p), agg)) in rows;
    }
  }

  lemma {:induction false} HasGroup(t: Table, f: Filter, g: Granularity, r: Row)
    requires r in t && Matches(r, f)
    ensures GroupValues(t, f, g, r.metric, Trunc(r.day, g)) != []
  {
    if r != t[0] {
      assert t == [t[0]] + t[1..];
      HasGroup(t[1..], f, g, r);
    }
  }

  /** Filled from the rows of the time-series query, in whatever order, the labels give the chart. */
  lemma FilledIsChart(rows: seq<SeriesRow>, t: Table, f: Filter, g: Granularity, agg: Aggregate,
                      filled: seq<PeriodRow>)
    requires SqlRange(f) && IsTimeSeries(rows, t, f, g, agg)
    requires |filled| == |LabelDays(f.from, f.to, g)|
    requires forall i :: 0 <= i < |filled| ==>
               filled[i].period == IsoDate(LabelDays(f.from, f.to, g)[i]) &&
               filled[i].metrics == map k | k in SeenKeys(rows, f.keys) :: Lookup(rows, filled[i].period, k)
    ensures filled == Chart(t, f, g, agg)
  {
    hide IsoDate, YearOf, LabelDays, GroupValues, Lookup, Present, IsTimeSeries, SeenKeys, ChartRows, AllKeys;
    var days := LabelDays(f.from, f.to, g);
    var chart := Chart(t, f, g, agg);
    SeenIsAll(rows, t, f, g, agg);
    forall i | 0 <= i < |filled| ensures filled[i] == chart[i] {
      forall k { LookupIsGroup(rows, t, f, g, agg, days[i], k); }
      assert filled[i].metrics == ChartRow(t, f, g, agg, days[i]).metrics;
    }
  }

  // ---------- the chart adds up to the card ----------

  function Column(rows: seq<PeriodRow>, k: string): real {
    if rows == [] then 0.0 else
    (if k in rows[0].metrics then rows[0].metrics[k] else 0.0) + Column(rows[1..], k)
  }

  ghost predicate AddsUp(t: Table, f: Filter, g: Granularity, k: string) {
    var card := QuerySummary(t, f, SUM);
    Column(Chart(t, f, g, SUM), k) == if k in card then card[k] else 0.0
  }

  function LabelSum(t: Table, f: Filter, g: Granularity, k: string, days: seq<int>): real {
    if days == [] then 0.0 else Total(GroupValues(t, f, g, k, days[0])) + LabelSum(t, f, g, k, days[1..])
  }

  lemma TotalCons(v: real, vs: seq<real>)
    ensures Total([v] + vs) == v + Total(vs)
  {
    assert ([v] + vs)[1..] == vs;
  }

  lemma GroupTotalStep(t: Table, f: Filter, g: Granularity, k: string, p: int)
    requires t != []
    ensures Total(GroupValues(t, f, g, k, p)) == Total(GroupValues(t[1..], f, g, k, p)) +
            if Matches(t[0], f) && t[0].metric == k && Trunc(t[0].day, g) == p then t[0].value else 0.0
  {
    hide Trunc;
    TotalCons(t[0].value, GroupValues(t[1..], f, g, k, p));
    assert [] + GroupValues(t[1..], f, g, k, p) == GroupValues(t[1..], f, g, k, p);
  }

  lemma ValuesTotalStep(t: Table, f: Filter, k: string)
    requires t != []
    ensures Total(Values(t, f, k)) == Total(Values(t[1..], f, k)) +
            if Matches(t[0], f) && t[0].metric == k then t[0].value else 0.0
  {
    TotalCons(t[0].value, Values(t[1..], f, k));
    assert [] + Values(t[1..], f, k) == Values(t[1..], f, k);
  }

  /** One more row adds its value to exactly one label, or to none. */
  lemma {:induction false} LabelSumStep(t: Table, f: Filter, g: Granularity, k: string, days: seq<int>)
    requires t != [] && Increasing(days)
    ensures LabelSum(t, f, g, k, days) == LabelSum(t[1..], f, g, k, days) +
            if Matches(t[0], f) && t[0].metric == k && Trunc(t[0].day, g) in days then t[0].value else 0.0
    decreases |days|
  {
    hide Trunc, GroupValues, Matches;
    if days != [] {
      LabelSumStep(t, f, g, k, days[1..]);
      GroupTotalStep(t, f, g, k, days[0]);
      assert days == [days[0]] + days[1..];
      if Trunc(t[0].day, g) in days[1..] {
        var i :| 0 <= i < |days[1..]| && days[1..][i] == Trunc(t[0].day, g);
        assert days[i + 1] > days[0];
      }
    }
  }

  lemma {:induction false} LabelSumIsTotal(t: Table, f: Filter, g: Granularity, k: string, days: seq<int>)
    requires Increasing(days)
    requires forall r :: r in t && Matches(r, f) ==> Trunc(r.day, g) in days
    ensures LabelSum(t, f, g, k, days) == Total(Values(t, f, k))
  {
    hide Trunc, Matches, LabelSum;
    if t == [] {
      LabelSumEmpty(f, g, k, days);
    } else {
      assert t == [t[0]] + t[1..];
      LabelSumIsTotal(t[1..], f, g, k, days);
      LabelSumStep(t, f, g, k, days);
      ValuesTotalStep(t, f, k);
    }
  }

  lemma {:induction false} LabelSumEmpty(f: Filter, g: Granularity, k: string, days: seq<int>)
    ensures LabelSum([], f, g, k, days) == 0.0
    decreases |days|
  {
    if days != [] { LabelSumEmpty(f, g, k, days[1..]); }
  }

  lemma {:induction false} ColumnIsLabelSum(t: Table, f: Filter, g: Granularity, k: string, days: seq<int>)
    ensures Column(ChartRows(t, f, g, SUM, days), k) == LabelSum(t, f, g, k, days)
    decreases |days|
  {
    hide IsoDate, Trunc, Present;
    if days != [] {
      ColumnIsLabelSum(t, f, g, k, days[1..]);
      var rows := ChartRows(t, f, g, SUM, days);
      assert rows[1..] == ChartRows(t, f, g, SUM, days[1..]);
      if GroupValues(t, f, g, k, days[0]) != [] { GroupDays(t, f, g, k, days[0]); }
      assert Total([]) == 0.0;
    }
  }

  /** Every matching day has its label, when the generator starts in place. */
  lemma LabelsCover(f: Filter, g: Granularity, day: int)
    requires f.from <= day <= f.to && StartsInPlace(f.from, g)
    ensures Trunc(day, g) in LabelDays(f.from, f.to, g)
  {
    hide Trunc, LabelDays, StartsInPlace;
    LabelsExact(f.from, f.to, g);
    assert IsTruncation(Trunc(day, g), f.from, f.to, g);
  }

  lemma ChartAddsUp(t: Table, f: Filter, g: Granularity, k: string)
    requires f.from <= f.to ==> StartsInPlace(f.from, g)
    ensures AddsUp(t, f, g, k)
  {
    hide Trunc, LabelDays, StartsInPlace, ChartRows;
    var days := LabelDays(f.from, f.to, g);
    LabelsExact(f.from, f.to, g);
    forall r | r in t && Matches(r, f) ensures Trunc(r.day, g) in days {
      LabelsCover(f, g, r.day);
    }
    LabelSumIsTotal(t, f, g, k, days);
    ColumnIsLabelSum(t, f, g, k, days);
    PresentHasValues(t, f, k);
    assert Total([]) == 0.0;
  }

  /**
   The chart under SUM adds up to the summary card for every table and metric if and only if the
   label generator starts in place, that is unless a month chart begins before the year 100.
   */
  lemma ChartAddsUpExactly(f: Filter, g: Granularity)
    ensures (forall t, k :: AddsUp(t, f, g, k)) <==> (f.from <= f.to ==> StartsInPlace(f.from, g))
  {
    hide AddsUp, StartsInPlace;
    if f.from <= f.to ==> StartsInPlace(f.from, g) {
      forall t, k { ChartAddsUp(t, f, g, k); }
    } else {
      var k := if f.keys == [] then "clicks" else f.keys[0];
      LateChartIsShort(f, g, k);
    }
  }

  lemma LateChartIsShort(f: Filter, g: Granularity, k: string)
    requires f.from <= f.to && !StartsInPlace(f.from, g) && (f.keys == [] || k in f.keys)
    ensures !AddsUp([Row(k, f.from, None, None, 1.0)], f, g, k)
  {
    hide Trunc, LabelDays, StartsInPlace, ChartRows, StartDay;
    var t := [Row(k, f.from, None, None, 1.0)];
    var days := LabelDays(f.from, f.to, g);
    assert t[1..] == [];
    assert Matches(t[0], f) && t[0] in t;
    assert Values(t, f, k) == [1.0] by { assert Values([], f, k) == []; }
    PresentHasValues(t, f, k);
    assert QuerySummary(t, f, SUM)[k] == 1.0 by { assert [1.0][1..] == []; }
    LateLabels(f, g);
    ColumnIsLabelSum(t, f, g, k, days);
    LabelsExact(f.from, f.to, g);
    LabelSumStep(t, f, g, k, days);
    LabelSumEmpty(f, g, k, days);
  }

  lemma LateLabels(f: Filter, g: Granularity)
    requires !StartsInPlace(f.from, g)
    ensures Trunc(f.from, g) !in LabelDays(f.from, f.to, g)
  {
    hide Trunc, StartDay, StartsInPlace, PeriodDays;
    StartDayTruncates(f.from, g);
    PeriodDaysExact(StartDay(f.from, g), f.to, g);
    TruncBelow(f.from, g);
  }
}
