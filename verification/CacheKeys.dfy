/** The Redis keys of metric queries and the answers cached under them. */
module CacheKeys {
  import opened Options
  import opened Text
  import opened Calendar
  import opened Periods
  import opened Metrics

  datatype Request =
    | ChartRequest(scope: Scope, from: string, to: string, keys: seq<string>, agg: Aggregate, g: Granularity)
    | CardRequest(scope: Scope, from: string, to: string, keys: seq<string>, agg: Aggregate)

  datatype Answer = Series(rows: seq<PeriodRow>) | Totals(metrics: map<string, real>)

  predicate CleanScope(s: Scope) { Free(':', s.tenant) && Free(':', s.campaign) && Free(':', s.platform) }

  /** Identifiers hold no colon and the dates are dates to PostgreSQL; metric keys are any strings. */
  predicate Clean(r: Request) { CleanScope(r.scope) && IsSqlDate(r.from) && IsSqlDate(r.to) }

  function FilterOf(r: Request): Filter
    requires IsDate(r.from) && IsDate(r.to)
  {
    Filter(DayOf(r.from), DayOf(r.to), r.keys)
  }

  /** What a fresh query answers. */
  function AnswerFor(t: Table, r: Request): Answer
    requires IsDate(r.from) && IsDate(r.to)
  {
    match r
    case ChartRequest(_, _, _, _, agg, g) => Series(Chart(t, FilterOf(r), g, agg))
    case CardRequest(_, _, _, _, agg) => Totals(QuerySummary(t, FilterOf(r), agg))
  }

  function AggregateName(a: Aggregate): string {
    match a case SUM => "sum" case AVG => "avg" case LAST => "last"
  }

  function KindName(r: Request): string {
    match r
    case ChartRequest(_, _, _, _, _, Day) => "day"
    case ChartRequest(_, _, _, _, _, Week) => "week"
    case ChartRequest(_, _, _, _, _, Month) => "month"
    case CardRequest(_, _, _, _, _) => "summary"
  }

  function BuildVersionKey(s: Scope): string { Join(':', ["mv", s.tenant, s.campaign, s.platform]) }

  function KeysStr(keys: seq<string>): string {
    if |keys| > 0 then Join(',', Sort(keys)) else "all"
  }

  function KeyFields(version: nat, r: Request): seq<string> {
    ["metrics", "v" + Decimal(version), r.scope.tenant, r.scope.campaign, r.scope.platform,
     r.from, r.to, KindName(r), AggregateName(r.agg)]
  }

  function BuildCacheKey(version: nat, r: Request): string {
    Join(':', KeyFields(version, r)) + [':'] + KeysStr(r.keys)
  }

  // ---------- when keys agree ----------

  lemma {:induction false} PrefixInjective(a: seq<string>, x: string, b: seq<string>, y: string)
    requires |a| == |b| > 0
    requires forall p :: p in a || p in b ==> Free(':', p)
    requires Join(':', a) + [':'] + x == Join(':', b) + [':'] + y
    ensures a == b && x == y
  {
    if |a| == 1 {
      SplitFirst(':', a[0], x, b[0], y);
    } else {
      var s, t := Join(':', a[1..]) + [':'] + x, Join(':', b[1..]) + [':'] + y;
      assert Join(':', a) + [':'] + x == a[0] + [':'] + s;
      assert Join(':', b) + [':'] + y == b[0] + [':'] + t;
      SplitFirst(':', a[0], s, b[0], t);
      PrefixInjective(a[1..], x, b[1..], y);
      assert a == [a[0]] + a[1..] && b == [b[0]] + b[1..];
    }
  }

  lemma DigitsFree(s: string, c: char)
    requires AllDigits(s) && !IsDigit(c)
    ensures Free(c, s)
  {
  }

  lemma DateFree(s: string)
    requires IsDate(s)
    ensures Free(':', s)
  {
    forall i | 0 <= i < |s| ensures s[i] != ':' {
      if i < 4 { assert s[i] == s[..4][i]; }
      if 5 <= i < 7 { assert s[i] == s[5..7][i - 5]; }
      if 8 <= i { assert s[i] == s[8..][i - 8]; }
    }
  }

  lemma FieldsFree(version: nat, r: Request)
    requires Clean(r)
    ensures forall p :: p in KeyFields(version, r) ==> Free(':', p)
  {
    hide ParseDate, Decimal;
    DateFree(r.from);
    DateFree(r.to);
    DigitsFree(Decimal(version), ':');
  }

  /** An absent filter prints as the filter on the one key "all". */
  function Printed(keys: seq<string>): seq<string> { if keys == [] then ["all"] else keys }

  /** What can be read off the printed list: the sorted keys, each cut at its own commas. */
  function KeyPieces(keys: seq<string>): seq<string> { Pieces(',', Sort(Printed(keys))) }

  /** Two lists of any keys print alike exactly when, sorted and cut at every comma, they are the same. */
  lemma KeysStrExact(a: seq<string>, b: seq<string>)
    ensures KeysStr(a) == KeysStr(b) <==> KeyPieces(a) == KeyPieces(b)
  {
    hide KeysStr, KeyPieces, Split, Join;
    KeysStrJoins(a);
    KeysStrJoins(b);
    JoinSplit(',', KeysStr(a));
    JoinSplit(',', KeysStr(b));
  }

  lemma KeysStrJoins(keys: seq<string>)
    ensures KeysStr(keys) == Join(',', Sort(Printed(keys))) && Split(',', KeysStr(keys)) == KeyPieces(keys)
  {
    hide Split, Pieces, Sort, Join;
    if keys == [] { OneKey("all"); }
    SortLength(Printed(keys));
    SplitPieces(',', Sort(Printed(keys)));
  }

  lemma SortLength(a: seq<string>)
    ensures |Sort(a)| == |a|
    ensures forall k :: k in Sort(a) <==> k in a
  {
    hide Sort;
    assert |multiset(Sort(a))| == |multiset(a)|;
    forall k ensures k in Sort(a) <==> k in a {
      assert k in Sort(a) <==> k in multiset(Sort(a));
    }
  }

  lemma OneKey(k: string)
    ensures Join(',', [k]) == k && Sort([k]) == [k]
  {
  }

  function KeySet(keys: seq<string>): set<string> { set k | k in keys }

  predicate SameFields(a: Request, b: Request) {
    a.scope == b.scope && a.from == b.from && a.to == b.to && KindName(a) == KindName(b) && a.agg == b.agg
  }

  /** The two requests ask the same question of the same scope. */
  predicate SameQuestion(a: Request, b: Request) { SameFields(a, b) && KeySet(a.keys) == KeySet(b.keys) }

  /** The two requests are cached under one key, whatever the version. */
  predicate SharesKey(a: Request, b: Request) { SameFields(a, b) && KeyPieces(a.keys) == KeyPieces(b.keys) }

  /** Another question under the same key. */
  predicate Rival(q: Request, r: Request) { SharesKey(q, r) && !SameQuestion(q, r) }

  /** Two keys are equal exactly for the same version and requests that share a key. */
  lemma CacheKeyExact(v: nat, a: Request, w: nat, b: Request)
    requires Clean(a) && Clean(b)
    ensures BuildCacheKey(v, a) == BuildCacheKey(w, b) <==> v == w && SharesKey(a, b)
  {
    hide Decimal, Join, KeysStr, KeyPieces, ParseDate, YearOf;
    KeysStrExact(a.keys, b.keys);
    FieldsFree(v, a);
    FieldsFree(w, b);
    if BuildCacheKey(v, a) == BuildCacheKey(w, b) {
      PrefixInjective(KeyFields(v, a), KeysStr(a.keys), KeyFields(w, b), KeysStr(b.keys));
      assert KeyFields(v, a)[1] == KeyFields(w, b)[1];
      assert Decimal(v) == KeyFields(v, a)[1][1..] && Decimal(w) == KeyFields(w, b)[1][1..];
      DecimalInjective(v, w);
      assert forall i :: 2 <= i < 9 ==> KeyFields(v, a)[i] == KeyFields(w, b)[i];
      AggregateNames(a.agg, b.agg);
    }
  }

  lemma AggregateNames(a: Aggregate, b: Aggregate)
    ensures AggregateName(a) == AggregateName(b) ==> a == b
  {
  }

  lemma VersionKeyInjective(s: Scope, u: Scope)
    requires CleanScope(s) && CleanScope(u) && BuildVersionKey(s) == BuildVersionKey(u)
    ensures s == u
  {
    var a, b := ["mv", s.tenant, s.campaign, s.platform], ["mv", u.tenant, u.campaign, u.platform];
    JoinInjective(':', a, b);
    assert a[1] == b[1] && a[2] == b[2] && a[3] == b[3];
  }

  // ---------- which requests have a rival ----------

  /** Some comma cuts the key into two strings in sorted order. */
  predicate CanCut(k: string) { exists i :: 0 <= i < |k| && k[i] == ',' && Le(k[..i], k[i + 1..]) }

  /** All lists but those of one key that is neither "all" nor two sorted keys with a comma between them. */
  predicate Contested(keys: seq<string>) { |keys| != 1 || keys[0] == "all" || CanCut(keys[0]) }

  /** Another question has the same key exactly when the list of metric keys is contested. */
  lemma RivalExactly(r: Request)
    ensures (exists q :: Rival(q, r)) <==> Contested(r.keys)
  {
    hide Rival, Contested;
    if Contested(r.keys) { var q := SomeRival(r); }
    if q :| Rival(q, r) { RivalContests(q, r); }
  }

  lemma SomeRival(r: Request) returns (q: Request)
    requires Contested(r.keys)
    ensures Rival(q, r)
  {
    hide CanCut, KeyPieces, KeysStr, KeySet, Rival;
    var keys := [];
    if |r.keys| > 1 {
      keys := [KeysStr(r.keys)];
      JoinedRival(r.keys);
    } else if r.keys == [] || r.keys[0] == "all" {
      keys := if r.keys == [] then ["all"] else [];
      assert r.keys == [] || r.keys == ["all"];
      NoFilterRival();
    } else {
      var x, y := CutRival(r.keys[0]);
      keys := [x, y];
      assert r.keys == [r.keys[0]];
    }
    RivalByKeys(r, keys);
    q := r.(keys := keys);
  }

  lemma RivalByKeys(r: Request, keys: seq<string>)
    requires KeyPieces(keys) == KeyPieces(r.keys) && KeySet(keys) != KeySet(r.keys)
    ensures Rival(r.(keys := keys), r)
  {
    hide KeyPieces, KeySet;
  }

  lemma NoFilterRival()
    ensures KeyPieces([]) == KeyPieces(["all"]) && KeySet([]) != KeySet(["all"])
  {
    hide Pieces, Sort;
    assert "all" in KeySet(["all"]);
  }

  /** The printed list is itself a key. */
  lemma JoinedRival(keys: seq<string>)
    requires |keys| > 1
    ensures KeyPieces([KeysStr(keys)]) == KeyPieces(keys) && KeySet([KeysStr(keys)]) != KeySet(keys)
  {
    hide Split, Pieces, Sort;
    var s, sorted := KeysStr(keys), Sort(keys);
    KeysStrJoins(keys);
    OneKey(s);
    KeysStrJoins([s]);
    SortLength(keys);
    assert sorted[0] in keys && |s| > |sorted[0]|;
    assert sorted[0] in KeySet(keys) && sorted[0] !in KeySet([s]);
  }

  /** A cut key is printed by the list of its two halves. */
  lemma CutRival(k: string) returns (x: string, y: string)
    requires CanCut(k)
    ensures KeyPieces([x, y]) == KeyPieces([k]) && KeySet([x, y]) != KeySet([k])
  {
    hide Split, Pieces, Sort, Le;
    var i :| 0 <= i < |k| && k[i] == ',' && Le(k[..i], k[i + 1..]);
    x, y := k[..i], k[i + 1..];
    assert x + [','] + y == k;
    SortPair(x, y);
    assert [x, y][1..] == [y];
    assert Join(',', [x, y]) == k;
    KeysStrJoins([x, y]);
    OneKey(k);
    KeysStrJoins([k]);
    assert x in KeySet([x, y]) && x !in KeySet([k]);
  }

  lemma SortPair(x: string, y: string)
    requires Le(x, y)
    ensures Sort([x, y]) == [x, y]
  {
    hide Le;
    assert [x, y][1..] == [y];
    OneKey(y);
  }

  lemma RivalContests(q: Request, r: Request)
    requires Rival(q, r)
    ensures Contested(r.keys)
  {
    hide CanCut, KeyPieces, KeysStr, KeySet;
    if |r.keys| == 1 {
      assert r.keys == [r.keys[0]];
      KeysStrExact(q.keys, r.keys);
      ShortList(r.keys);
      ShortList(q.keys);
      if |q.keys| > 1 { JoinCuts(q.keys); }
    }
  }

  /** A list of at most one key prints as that key, or as "all". */
  lemma ShortList(keys: seq<string>)
    ensures |keys| <= 1 ==> Printed(keys) == [KeysStr(keys)]
  {
    hide Sort, Join;
    if |keys| == 1 {
      OneKey(keys[0]);
      assert keys == [keys[0]];
    }
  }

  /** The printed list of two keys or more can be cut behind its first key. */
  lemma JoinCuts(keys: seq<string>)
    requires |keys| > 1
    ensures CanCut(KeysStr(keys))
  {
    hide Le, Sort;
    var s, k := Sort(keys), KeysStr(keys);
    SortLength(keys);
    SortSorted(keys);
    var rest := Join(',', s[1..]);
    assert Le(s[0], s[1]) && s[1..][0] == s[1];
    if |s| == 2 {
      assert rest == s[1];
    } else {
      LePrefix(s[0], s[1], [','] + Join(',', s[1..][1..]));
      assert rest == s[1] + ([','] + Join(',', s[1..][1..]));
    }
    assert k == s[0] + [','] + rest;
    assert k[|s[0]|] == ',' && k[..|s[0]|] == s[0] && k[|s[0]| + 1..] == rest;
  }

  /** No key holds a comma, and the list is not the one key that stands for no filter. */
  predicate Plain(r: Request) { r.keys != ["all"] && forall k :: k in r.keys ==> Free(',', k) }

  /** Callers that all keep to this are never each other's rivals. */
  lemma PlainHaveNoRivals(a: Request, b: Request)
    requires Plain(a) && Plain(b)
    ensures !Rival(a, b)
  {
    hide Pieces, Sort;
    if SharesKey(a, b) {
      SortLength(Printed(a.keys));
      SortLength(Printed(b.keys));
      PiecesOfFree(',', Sort(Printed(a.keys)));
      PiecesOfFree(',', Sort(Printed(b.keys)));
      assert Sort(Printed(a.keys)) == Sort(Printed(b.keys));
      SamePlainKeys(a.keys, b.keys);
    }
  }

  lemma SamePlainKeys(a: seq<string>, b: seq<string>)
    requires a != ["all"] && b != ["all"] && Sort(Printed(a)) == Sort(Printed(b))
    ensures KeySet(a) == KeySet(b)
  {
    hide Sort;
    SortLength(Printed(a));
    SortLength(Printed(b));
    assert forall k :: k in Printed(a) <==> k in Printed(b);
    if a == [] || b == [] {
      assert |Printed(a)| == |Printed(b)| == 1;
      assert Printed(a)[0] in Printed(b) && Printed(b)[0] in Printed(a);
      assert a == b;
    }
  }

  // ---------- when the answers of two requests differ ----------

  predicate Selects(keys: seq<string>, m: string) { keys == [] || m in keys }

  /** The row is in the range and the aggregate looks at it. */
  predicate Counted(x: Row, r: Request)
    requires IsDate(r.from) && IsDate(r.to)
  {
    DayOf(r.from) <= x.day <= DayOf(r.to) && (r.agg == LAST ==> x.dimKey.None? && x.dimVal.None?)
  }

  lemma {:induction false} LatestFound(t: Table, f: Filter, k: string)
    ensures Latest(t, f, k).Some? <==>
            exists x :: x in t && Matches(x, f) && x.metric == k && x.dimKey.None? && x.dimVal.None?
  {
    hide Matches;
    if t != [] {
      LatestFound(t[1..], f, k);
      assert t == [t[0]] + t[1..];
      assert forall x :: x in t <==> x == t[0] || x in t[1..];
    }
  }

  /** The metrics of a card: those of the rows it selects and counts. */
  lemma CardHas(t: Table, f: Filter, agg: Aggregate, k: string)
    ensures k in QuerySummary(t, f, agg) <==>
            exists x :: x in t && Matches(x, f) && x.metric == k && (agg == LAST ==> x.dimKey.None? && x.dimVal.None?)
  {
    hide Matches, Latest, Values;
    LatestFound(t, f, k);
  }

  lemma {:induction false} SameSelected(t: Table, a: Filter, b: Filter, k: string)
    requires a.from == b.from && a.to == b.to && Selects(a.keys, k) == Selects(b.keys, k)
    ensures Values(t, a, k) == Values(t, b, k) && Latest(t, a, k) == Latest(t, b, k)
  {
    if t != [] { SameSelected(t[1..], a, b, k); }
  }

  lemma {:induction false} SameSelectedGroups(t: Table, a: Filter, b: Filter, g: Granularity, k: string, p: int)
    requires a.from == b.from && a.to == b.to && Selects(a.keys, k) == Selects(b.keys, k)
    ensures GroupValues(t, a, g, k, p) == GroupValues(t, b, g, k, p)
  {
    hide Trunc;
    if t != [] { SameSelectedGroups(t[1..], a, b, g, k, p); }
  }

  /** The two filters select the same of the rows that count. */
  ghost predicate SelectAlike(t: Table, a: Request, b: Request)
    requires IsDate(a.from) && IsDate(a.to)
  {
    forall x :: x in t && Counted(x, a) ==> Selects(a.keys, x.metric) == Selects(b.keys, x.metric)
  }

  lemma CountedAlike(x: Row, a: Request, b: Request)
    requires IsDate(a.from) && IsDate(a.to) && SameFields(a, b)
    ensures Counted(x, a) == Counted(x, b)
  {
  }

  lemma AlikeSymmetric(t: Table, a: Request, b: Request)
    requires IsDate(a.from) && IsDate(a.to) && SameFields(a, b) && SelectAlike(t, a, b)
    ensures SelectAlike(t, b, a)
  {
    hide Selects, ParseDate, IsDate;
  }

  lemma SelectedMetric(t: Table, a: Request, b: Request, x: Row)
    requires Clean(a) && SameFields(a, b) && x in t && Counted(x, a)
    requires Selects(a.keys, x.metric) && !Selects(b.keys, x.metric)
    ensures x.metric in QuerySummary(t, FilterOf(a), a.agg) && x.metric !in QuerySummary(t, FilterOf(b), b.agg)
  {
    hide ParseDate, YearOf, QuerySummary, CleanScope;
    CardHas(t, FilterOf(a), a.agg, x.metric);
    CardHas(t, FilterOf(b), b.agg, x.metric);
  }

  /** The metric of an entry of one card is in the other, with the same value. */
  lemma EntryAlike(t: Table, a: Request, b: Request, k: string)
    requires Clean(a) && Clean(b) && SameFields(a, b) && SelectAlike(t, a, b) && k in QuerySummary(t, FilterOf(a), a.agg)
    ensures k in QuerySummary(t, FilterOf(b), b.agg)
    ensures QuerySummary(t, FilterOf(a), a.agg)[k] == QuerySummary(t, FilterOf(b), b.agg)[k]
  {
    hide ParseDate, YearOf, QuerySummary, CleanScope;
    var f, g := FilterOf(a), FilterOf(b);
    CardHas(t, f, a.agg, k);
    var x :| x in t && Matches(x, f) && x.metric == k && (a.agg == LAST ==> x.dimKey.None? && x.dimVal.None?);
    assert Counted(x, a) && Matches(x, g);
    CardHas(t, g, a.agg, k);
    SameSelected(t, f, g, k);
    SameEntry(t, f, g, a.agg, k);
  }

  lemma SameEntry(t: Table, f: Filter, g: Filter, agg: Aggregate, k: string)
    requires k in QuerySummary(t, f, agg) && k in QuerySummary(t, g, agg)
    requires Values(t, f, k) == Values(t, g, k) && Latest(t, f, k) == Latest(t, g, k)
    ensures QuerySummary(t, f, agg)[k] == QuerySummary(t, g, agg)[k]
  {
    hide Values, Latest, AggregateOf, Present;
  }

  /** Two cards that differ in their filters only agree exactly on the tables where those select alike. */
  lemma CardsAgreeExactly(t: Table, a: Request, b: Request)
    requires Clean(a) && SameFields(a, b) && a.CardRequest?
    ensures AnswerFor(t, a) == AnswerFor(t, b) <==> SelectAlike(t, a, b)
  {
    hide ParseDate, YearOf, QuerySummary, CleanScope, Counted, Selects;
    if SelectAlike(t, a, b) {
      AlikeSymmetric(t, a, b);
      forall k | k in QuerySummary(t, FilterOf(a), a.agg) { EntryAlike(t, a, b, k); }
      forall k | k in QuerySummary(t, FilterOf(b), b.agg) { EntryAlike(t, b, a, k); }
      assert QuerySummary(t, FilterOf(a), a.agg) == QuerySummary(t, FilterOf(b), b.agg);
    } else {
      var x :| x in t && Counted(x, a) && Selects(a.keys, x.metric) != Selects(b.keys, x.metric);
      CountedAlike(x, a, b);
      if Selects(a.keys, x.metric) { SelectedMetric(t, a, b, x); } else { SelectedMetric(t, b, a, x); }
    }
  }

  function Days(r: Request): seq<int>
    requires r.ChartRequest? && IsDate(r.from) && IsDate(r.to)
  {
    LabelDays(DayOf(r.from), DayOf(r.to), r.g)
  }

  lemma ChartKeyAlike(t: Table, a: Filter, b: Filter, g: Granularity, agg: Aggregate, k: string, p: int)
    requires a.from == b.from && a.to == b.to && AllKeys(t, a) == AllKeys(t, b) && k in AllKeys(t, a)
    ensures GroupValue(t, a, g, agg, k, p) == GroupValue(t, b, g, agg, k, p)
  {
    hide GroupValues, AggregateOf;
    assert Selects(a.keys, k) && Selects(b.keys, k);
    SameSelectedGroups(t, a, b, g, k, p);
  }

  /** Two charts that differ in their filters only agree exactly without labels, or when they show the same metrics. */
  lemma ChartsAgreeExactly(t: Table, a: Request, b: Request)
    requires Clean(a) && SameFields(a, b) && a.ChartRequest?
    ensures b.ChartRequest? && b.g == a.g
    ensures AnswerFor(t, a) == AnswerFor(t, b) <==> Days(a) == [] || AllKeys(t, FilterOf(a)) == AllKeys(t, FilterOf(b))
  {
    hide ParseDate, YearOf, CleanScope, LabelDays, AllKeys, GroupValue, IsoDate, ChartRows;
    var x, y, days := FilterOf(a), FilterOf(b), Days(a);
    var rows, other := ChartRows(t, x, a.g, a.agg, days), ChartRows(t, y, a.g, a.agg, days);
    if AllKeys(t, x) == AllKeys(t, y) {
      forall i | 0 <= i < |days| ensures rows[i] == other[i] {
        forall k | k in AllKeys(t, x) { ChartKeyAlike(t, x, y, a.g, a.agg, k, days[i]); }
      }
    } else if days != [] {
      assert rows[0].metrics.Keys == AllKeys(t, x) && other[0].metrics.Keys == AllKeys(t, y);
    }
  }

  /** The order and repetition of metric keys do not matter. */
  lemma SameQuestionSameAnswer(t: Table, a: Request, b: Request)
    requires Clean(a) && SameQuestion(a, b)
    ensures AnswerFor(t, a) == AnswerFor(t, b)
  {
    hide ParseDate, YearOf, CleanScope, LabelDays, AnswerFor, Counted;
    SameSelection(a.keys, b.keys);
    if a.CardRequest? {
      CardsAgreeExactly(t, a, b);
    } else {
      ChartsAgreeExactly(t, a, b);
      SameAllKeys(t, FilterOf(a), FilterOf(b));
    }
  }

  lemma SameAllKeys(t: Table, a: Filter, b: Filter)
    requires a.from == b.from && a.to == b.to && forall m :: Selects(a.keys, m) == Selects(b.keys, m)
    requires KeySet(a.keys) == KeySet(b.keys)
    ensures AllKeys(t, a) == AllKeys(t, b)
  {
    forall r ensures Matches(r, a) == Matches(r, b) {
      assert Selects(a.keys, r.metric) == Selects(b.keys, r.metric);
    }
    assert Present(t, a) == Present(t, b);
  }

  lemma SameSelection(a: seq<string>, b: seq<string>)
    requires KeySet(a) == KeySet(b)
    ensures forall m :: Selects(a, m) == Selects(b, m)
    ensures forall m :: m in a <==> m in b
  {
    forall m ensures m in a <==> m in b {
      assert m in a <==> m in KeySet(a);
      assert m in b <==> m in KeySet(b);
    }
    assert a != [] ==> a[0] in b;
    assert b != [] ==> b[0] in a;
  }

  /** A card counts the days of its range, a chart shows the labels of it: neither is empty. */
  predicate Spans(r: Request)
    requires IsDate(r.from) && IsDate(r.to)
  {
    if r.CardRequest? then DayOf(r.from) <= DayOf(r.to) else Days(r) != []
  }

  lemma NothingToTell(t: Table, a: Request, b: Request)
    requires Clean(a) && SameFields(a, b) && !Spans(a)
    ensures AnswerFor(t, a) == AnswerFor(t, b)
  {
    hide ParseDate, YearOf, CleanScope, LabelDays, AllKeys, AnswerFor;
    if a.CardRequest? { CardsAgreeExactly(t, a, b); } else { ChartsAgreeExactly(t, a, b); }
  }

  /** One row on the first day of the range. */
  function OneRow(m: string, r: Request): Table
    requires IsDate(r.from)
  {
    [Row(m, DayOf(r.from), None, None, 1.0)]
  }

  /** Some metric is selected by one of two rivals only. */
  lemma TellingMetric(a: Request, b: Request) returns (m: string)
    requires Rival(a, b)
    ensures Selects(a.keys, m) != Selects(b.keys, m)
  {
    hide KeyPieces;
    if a.keys != [] && b.keys != [] {
      m :| (m in KeySet(a.keys)) != (m in KeySet(b.keys));
    } else {
      m := "clicks";
      OnlyAll(a.keys);
      OnlyAll(b.keys);
      assert m != "all";
    }
  }

  /** Only the list ["all"] prints as the absent filter does. */
  lemma OnlyAll(a: seq<string>)
    ensures KeyPieces(a) == KeyPieces([]) <==> a == [] || a == ["all"]
  {
    hide Sort, Join, Pieces, Split;
    KeysStrExact(a, []);
    ShortList(a);
    if |a| > 1 {
      JoinCuts(a);
      assert ',' in KeysStr(a);
      assert ',' !in "all";
    }
  }

  /** On a row of that metric the two answers differ, whatever the aggregate, for cards and for charts. */
  lemma RowTells(a: Request, b: Request, m: string)
    requires Clean(a) && SameFields(a, b) && Selects(a.keys, m) != Selects(b.keys, m) && Spans(a)
    ensures AnswerFor(OneRow(m, a), a) != AnswerFor(OneRow(m, a), b)
  {
    hide ParseDate, YearOf, CleanScope, LabelDays, AllKeys, AnswerFor;
    var t := OneRow(m, a);
    if a.CardRequest? {
      CardsAgreeExactly(t, a, b);
      assert t[0] in t && Counted(t[0], a);
    } else {
      ChartsAgreeExactly(t, a, b);
      KeysTell(FilterOf(a), FilterOf(b), t[0]);
      assert t == [t[0]];
    }
  }

  lemma KeysTell(a: Filter, b: Filter, r: Row)
    requires a.from == b.from && a.to == b.to && Selects(a.keys, r.metric) != Selects(b.keys, r.metric)
    ensures AllKeys([r], a) != AllKeys([r], b)
  {
    var one, other := if Selects(a.keys, r.metric) then a else b, if Selects(a.keys, r.metric) then b else a;
    assert Present([r], one) == if Matches(r, one) then {r.metric} else {};
    assert Present([r], other) == {};
    assert other.keys[0] in AllKeys([r], other) && r.metric !in AllKeys([r], other);
    if one.keys != [] { assert r.metric in AllKeys([r], one); }
  }

  /** Rivals share their key at every version; some table tells their answers apart exactly when the range spans something. */
  lemma RivalsDiffer(a: Request, b: Request)
    requires Clean(a) && Rival(a, b)
    ensures forall v: nat :: BuildCacheKey(v, a) == BuildCacheKey(v, b)
    ensures Spans(a) <==> exists t :: AnswerFor(t, a) != AnswerFor(t, b)
  {
    hide ParseDate, YearOf, CleanScope, AnswerFor, KeyPieces, KeySet, BuildCacheKey, Spans;
    forall v: nat ensures BuildCacheKey(v, a) == BuildCacheKey(v, b) { CacheKeyExact(v, a, v, b); }
    if Spans(a) {
      var m := TellingMetric(a, b);
      RowTells(a, b, m);
    } else {
      forall t { NothingToTell(t, a, b); }
    }
  }

  /** The metric "clicks,impressions" against the two metrics, and the metric "all" against no filter. */
  lemma KnownRivals(r: Request)
    ensures Rival(r.(keys := ["clicks,impressions"]), r.(keys := ["clicks", "impressions"]))
    ensures Rival(r.(keys := ["all"]), r.(keys := []))
  {
    hide Pieces, KeySet;
    var pair := ["clicks", "impressions"];
    SortPair("clicks", "impressions");
    assert pair[1..] == ["impressions"];
    assert KeysStr(pair) == "clicks,impressions";
    JoinedRival(pair);
    RivalByKeys(r.(keys := pair), ["clicks,impressions"]);
    NoFilterRival();
    RivalByKeys(r.(keys := []), ["all"]);
  }
}
