/**
 The alert check of one campaign and platform: alerts grouped by period so that one summary serves a
 whole group, their conditions, and the cooldown between two events of the same alert.
 */
module Alerts {
  import opened Options
  import opened Calendar
  import opened PriorPeriod
  import opened Metrics
  import opened CardsAndCharts

  const MS_PER_HOUR := 3_600_000

  datatype Alert = Alert(
    id: string, metricKey: string, condition: string, threshold: real, periodType: string,
    recipients: seq<string>, cooldownHours: int, lastTriggeredAt: Option<int>, active: bool)

  datatype Triggered = Triggered(alert: Alert, currentValue: real)

  datatype AlertEvent = AlertEvent(
    alertId: string, triggeredValue: real, thresholdValue: real, condition: string, emailsSent: seq<string>, notifiedAt: int)

  // ---------- conditions ----------

  function Evaluate(a: Alert, current: real, prior: real): bool {
    if a.condition == "ABOVE" then current > a.threshold
    else if a.condition == "BELOW" then current < a.threshold
    else if a.condition == "PERCENT_CHANGE_ABOVE" || a.condition == "PERCENT_CHANGE_BELOW" then
      if prior == 0.0 then false else
      var changePct := (current - prior) / prior * 100.0;
      if a.condition == "PERCENT_CHANGE_ABOVE" then changePct > a.threshold else changePct < a.threshold
    else false
  }

  predicate IsPercent(a: Alert) { a.condition == "PERCENT_CHANGE_ABOVE" || a.condition == "PERCENT_CHANGE_BELOW" }

  /**
   A percent condition compares the value with the baseline changed by threshold per cent. A negative
   baseline turns the comparison round, and against a zero one nothing fires.
   */
  lemma PercentMeaning(a: Alert, current: real, prior: real)
    requires IsPercent(a)
    ensures Evaluate(a, current, prior) <==> PercentHolds(a, current, prior)
  {
    if prior != 0.0 {
      var q := (current - prior) / prior;
      assert q * prior == current - prior;
      Compare(q, a.threshold, prior, current);
    }
  }

  lemma Compare(q: real, y: real, prior: real, current: real)
    requires q * prior == current - prior && prior != 0.0
    ensures prior > 0.0 ==> (q * 100.0 > y <==> 100.0 * current > prior * (100.0 + y))
                            && (q * 100.0 < y <==> 100.0 * current < prior * (100.0 + y))
    ensures prior < 0.0 ==> (q * 100.0 > y <==> 100.0 * current < prior * (100.0 + y))
                            && (q * 100.0 < y <==> 100.0 * current > prior * (100.0 + y))
  {
    var x, gain, bound := q * 100.0, 100.0 * (current - prior), prior * (100.0 + y) - 100.0 * prior;
    assert x * prior == gain by { assert q * 100.0 * prior == 100.0 * (q * prior); }
    assert y * prior == bound by { assert prior * (100.0 + y) == prior * 100.0 + prior * y; }
    if prior > 0.0 {
      Scale(x, y, prior, gain, bound);
    } else {
      Negated(x, prior);
      Negated(y, prior);
      Scale(x, y, -prior, -gain, -bound);
    }
  }

  lemma Negated(x: real, k: real)
    ensures x * -k == -(x * k)
  {
  }

  predicate PercentHolds(a: Alert, current: real, prior: real) {
    var bound := prior * (100.0 + a.threshold);
    if prior == 0.0 then false
    else if (a.condition == "PERCENT_CHANGE_ABOVE") == (prior > 0.0) then 100.0 * current > bound
    else 100.0 * current < bound
  }

  lemma Scale(x: real, y: real, k: real, xk: real, yk: real)
    requires k > 0.0 && xk == x * k && yk == y * k
    ensures (x > y <==> xk > yk) && (x < y <==> xk < yk)
  {
    if x > y { assert (x - y) * k > 0.0; }
    if x < y { assert (y - x) * k > 0.0; }
  }

  predicate WithinCooldown(a: Alert, at: int) {
    a.lastTriggeredAt.Some? && at - a.lastTriggeredAt.value < a.cooldownHours * MS_PER_HOUR
  }

  // ---------- ranges and summaries ----------

  function PeriodRange(periodType: string, today: string): DateRange
    requires IsDate(today)
  {
    if periodType == "WEEKLY" then DateRange(MsToDateString(ParseMs(today) - 6 * MS_PER_DAY), today)
    else DateRange(today, today)
  }

  predicate IsRange(r: DateRange) { IsDate(r.from) && IsDate(r.to) }

  /** A day on which computePriorPeriod reads every year it meets as it is written. */
  predicate Usable(today: string) { IsDate(today) && YearOf(DayOf(today)) >= 101 }

  lemma RangesAreDates(periodType: string, today: string)
    requires Usable(today)
    ensures var r := PeriodRange(periodType, today); var d := DayOf(today);
            IsRange(r) && DayOf(r.to) == d && DayOf(r.from) == (if periodType == "WEEKLY" then d - 6 else d)
    ensures var r := PeriodRange(periodType, today); var p := ComputePriorPeriod(r.from, r.to); var d := DayOf(today);
            IsRange(p) && DayOf(p.to) == DayOf(r.from) - 1
            && DayOf(p.from) == (if periodType == "WEEKLY" then d - 13 else d - 1)
  {
    hide ParseDate, IsoDate, YearOf, PartsDay, IsLeap, DayFromYear;
    var d := DayOf(today);
    var back := if periodType == "WEEKLY" then 6 else 0;
    WholeDay(d - 6);
    ParsedYear(today);
    RecentYear(d, back);
    RecentYear(d, 1);
    RecentYear(d, 6);
    RecentYear(d, 7);
    RecentYear(d, 13);
    ParseIsoDate(d - 6);
    var r := PeriodRange(periodType, today);
    assert DayOf(r.from) == d - back;
    ComputeDays(r.from, r.to);
    PartsInPlace(d - back);
    PartsInPlace(d);
    ParseIsoDate(d - 1);
    ParseIsoDate(d - 7);
    ParseIsoDate(d - 13);
  }

  lemma RecentYear(d: int, k: int)
    requires 101 <= YearOf(d) <= 9999 && 0 <= k <= 13
    ensures 100 <= YearOf(d - k) <= 9999
  {
    hide IsLeap;
    YearOfMonotone(d - k, d);
    YearStep(YearOf(d) - 1);
    var y := YearOf(d) - 1;
    assert DayFromYear(y) + 365 <= DayFromYear(YearOf(d)) by { YearOrder(y, YearOf(d)); }
    if YearOf(d - k) < y { YearOrderWeak(YearOf(d - k) + 1, y); }
  }

  lemma YearOrderWeak(y: int, z: int)
    requires y <= z
    ensures DayFromYear(y) <= DayFromYear(z)
  {
    if y < z { YearOrder(y, z); }
  }

  function Summary(t: Table, r: DateRange, keys: seq<string>): map<string, real>
    requires IsRange(r)
  {
    QuerySummary(t, Filter(DayOf(r.from), DayOf(r.to), keys), SUM)
  }

  function ValueOf(m: map<string, real>, k: string): real { if k in m then m[k] else 0.0 }

  lemma {:induction false} ValuesOfOwnKey(t: Table, from: int, to: int, keys: seq<string>, k: string)
    requires k in keys
    ensures Values(t, Filter(from, to, keys), k) == Values(t, Filter(from, to, [k]), k)
  {
    if t != [] { ValuesOfOwnKey(t[1..], from, to, keys, k); }
  }

  /** Asking for other metrics as well does not change the answer for one of them. */
  lemma SummaryAlone(t: Table, r: DateRange, keys: seq<string>, k: string)
    requires IsRange(r) && k in keys
    ensures ValueOf(Summary(t, r, keys), k) == ValueOf(Summary(t, r, [k]), k)
  {
    hide IsDate, DayOf;
    var from, to := DayOf(r.from), DayOf(r.to);
    ValuesOfOwnKey(t, from, to, keys, k);
    PresentHasValues(t, Filter(from, to, keys), k);
    PresentHasValues(t, Filter(from, to, [k]), k);
  }

  // ---------- one alert on its own ----------

  function CurrentValue(t: Table, today: string, a: Alert): real
    requires Usable(today)
  {
    RangesAreDates(a.periodType, today);
    ValueOf(Summary(t, PeriodRange(a.periodType, today), [a.metricKey]), a.metricKey)
  }

  function PriorValue(t: Table, today: string, a: Alert): real
    requires Usable(today)
  {
    RangesAreDates(a.periodType, today);
    var r := PeriodRange(a.periodType, today);
    ValueOf(Summary(t, ComputePriorPeriod(r.from, r.to), [a.metricKey]), a.metricKey)
  }

  /** What a check of this alert alone, with a query of its own, would report. */
  function CheckOne(t: Table, today: string, a: Alert, at: int): Option<Triggered>
    requires Usable(today)
  {
    var current := CurrentValue(t, today, a);
    if !WithinCooldown(a, at) && Evaluate(a, current, PriorValue(t, today, a)) then Some(Triggered(a, current)) else None
  }

  // ---------- which alerts fire ----------

  /** The stored values of the alert's metric from one day to another, added up. */
  function Sum(t: Table, a: Alert, from: int, to: int): real { SumIn(t, from, to, a.metricKey) }

  /** The first day of the period that ends today: a week, or the day alone. */
  function PeriodStart(a: Alert, today: int): int { if a.periodType == "WEEKLY" then today - 6 else today }

  /** Past its cooldown, counted in hours. */
  predicate Ready(a: Alert, at: int) {
    a.lastTriggeredAt.None? || at - a.lastTriggeredAt.value >= a.cooldownHours * 60 * 60 * 1000
  }

  /** What the condition says of the sum over the period and of the one over the period of equal length before it. */
  predicate ConditionHolds(a: Alert, current: real, prior: real) {
    if a.condition == "ABOVE" then current > a.threshold
    else if a.condition == "BELOW" then current < a.threshold
    else IsPercent(a) && PercentHolds(a, current, prior)
  }

  predicate ShouldFire(t: Table, today: int, a: Alert, at: int) {
    var from := PeriodStart(a, today);
    Ready(a, at) && ConditionHolds(a, Sum(t, a, from, today), Sum(t, a, from - (today - from + 1), from - 1))
  }

  lemma {:induction false} NothingCounted(t: Table, from: int, to: int, k: string)
    ensures CountIn(t, from, to, k) == 0 ==> SumIn(t, from, to, k) == 0.0
  {
    if t != [] { NothingCounted(t[1..], from, to, k); }
  }

  lemma SummaryIsSum(t: Table, r: DateRange, k: string)
    requires IsRange(r)
    ensures ValueOf(Summary(t, r, [k]), k) == SumIn(t, DayOf(r.from), DayOf(r.to), k)
  {
    hide ParseDate, QuerySummary, SumIn, CountIn;
    var f := Filter(DayOf(r.from), DayOf(r.to), [k]);
    CardMeaning(t, f, SUM);
    NothingCounted(t, f.from, f.to, k);
    var card := QuerySummary(t, f, SUM);
    assert k in card <==> Asked(f, k) && CountIn(t, f.from, f.to, k) > 0;
    assert k in card ==> IsFigure(card[k], t, f.from, f.to, k, SUM);
  }

  lemma ValuesAreSums(t: Table, today: string, a: Alert)
    requires Usable(today)
    ensures var d := DayOf(today); var from := PeriodStart(a, d);
            CurrentValue(t, today, a) == Sum(t, a, from, d) && PriorValue(t, today, a) == Sum(t, a, from - (d - from + 1), from - 1)
  {
    hide ParseDate, YearOf, Summary, SumIn, PeriodRange, ComputePriorPeriod, ValueOf;
    RangesAreDates(a.periodType, today);
    var r := PeriodRange(a.periodType, today);
    SummaryIsSum(t, r, a.metricKey);
    SummaryIsSum(t, ComputePriorPeriod(r.from, r.to), a.metricKey);
  }

  lemma EvaluateMeaning(a: Alert, current: real, prior: real)
    ensures Evaluate(a, current, prior) <==> ConditionHolds(a, current, prior)
  {
    hide PercentHolds;
    if IsPercent(a) { PercentMeaning(a, current, prior); }
  }

  lemma FiresExactly(t: Table, today: string, a: Alert, at: int)
    requires Usable(today)
    ensures CheckOne(t, today, a, at).Some? <==> ShouldFire(t, DayOf(today), a, at)
    ensures CheckOne(t, today, a, at).Some? ==>
              CheckOne(t, today, a, at).value == Triggered(a, Sum(t, a, PeriodStart(a, DayOf(today)), DayOf(today)))
  {
    hide ParseDate, YearOf, CurrentValue, PriorValue, Evaluate, ConditionHolds, Sum, PeriodStart;
    ValuesAreSums(t, today, a);
    EvaluateMeaning(a, CurrentValue(t, today, a), PriorValue(t, today, a));
  }

  // ---------- what a run reports ----------

  type Rows = map<string, Alert>

  /** fired holds, once each, exactly the reports of those of the given alerts that fire on their own. */
  ghost predicate FiredAmong(fired: seq<Triggered>, ids: set<string>, alerts: Rows, t: Table, today: string, checkedAt: string -> int)
    requires Usable(today)
  {
    (forall i, j :: 0 <= i < j < |fired| ==> fired[i].alert.id != fired[j].alert.id)
    && (forall x :: x in fired ==> Reported(x, ids, alerts, t, today, checkedAt))
    && (forall id :: id in ids && id in alerts && CheckOne(t, today, alerts[id], checkedAt(id)).Some? ==>
          CheckOne(t, today, alerts[id], checkedAt(id)).value in fired)
  }

  ghost predicate Reported(x: Triggered, ids: set<string>, alerts: Rows, t: Table, today: string, checkedAt: string -> int)
    requires Usable(today)
  {
    x.alert.id in ids && x.alert.id in alerts && CheckOne(t, today, alerts[x.alert.id], checkedAt(x.alert.id)) == Some(x)
  }

  ghost predicate IsFired(fired: seq<Triggered>, id: string) { exists x :: x in fired && x.alert.id == id }

  /** The active alerts whose condition holds past their cooldown fire, no others, each with the sum over its period. */
  ghost predicate Fires(fired: seq<Triggered>, alerts: Rows, t: Table, today: int, checkedAt: string -> int) {
    (forall id :: id in alerts ==> (IsFired(fired, id) <==> alerts[id].active && ShouldFire(t, today, alerts[id], checkedAt(id))))
    && forall x :: x in fired ==>
         x.alert.id in alerts && x == Triggered(alerts[x.alert.id], Sum(t, x.alert, PeriodStart(x.alert, today), today))
  }

  lemma FiredFires(fired: seq<Triggered>, alerts: Rows, t: Table, today: string, checkedAt: string -> int)
    requires Usable(today) && Keyed(alerts) && FiredAmong(fired, ActiveIds(alerts), alerts, t, today, checkedAt)
    ensures Fires(fired, alerts, t, DayOf(today), checkedAt)
  {
    hide ParseDate, YearOf, CheckOne, ShouldFire, Sum, PeriodStart;
    forall id | id in alerts
      ensures IsFired(fired, id) <==> alerts[id].active && ShouldFire(t, DayOf(today), alerts[id], checkedAt(id))
    {
      FiresExactly(t, today, alerts[id], checkedAt(id));
      if x :| x in fired && x.alert.id == id { assert Reported(x, ActiveIds(alerts), alerts, t, today, checkedAt); }
      if id in ActiveIds(alerts) && CheckOne(t, today, alerts[id], checkedAt(id)).Some? {
        assert CheckOne(t, today, alerts[id], checkedAt(id)).value in fired;
      }
    }
    forall x | x in fired
      ensures x.alert.id in alerts && x == Triggered(alerts[x.alert.id], Sum(t, x.alert, PeriodStart(x.alert, DayOf(today)), DayOf(today)))
    {
      assert Reported(x, ActiveIds(alerts), alerts, t, today, checkedAt);
      FiresExactly(t, today, alerts[x.alert.id], checkedAt(x.alert.id));
    }
  }

  ghost predicate Keyed(alerts: Rows) { forall id :: id in alerts ==> alerts[id].id == id }

  ghost function ActiveIds(alerts: Rows): set<string> { set id | id in alerts && alerts[id].active }

  lemma FiredMore(fired: seq<Triggered>, ids: set<string>, alerts: Rows, t: Table, today: string, checkedAt: string -> int, id: string)
    requires Usable(today) && Keyed(alerts) && FiredAmong(fired, ids, alerts, t, today, checkedAt) && id in alerts && id !in ids
    ensures var r := CheckOne(t, today, alerts[id], checkedAt(id));
            FiredAmong(fired + (if r.Some? then [r.value] else []), ids + {id}, alerts, t, today, checkedAt)
  {
    hide CurrentValue, PriorValue, Usable, Evaluate;
    var r := CheckOne(t, today, alerts[id], checkedAt(id));
    var fired2 := fired + (if r.Some? then [r.value] else []);
    forall x | x in fired2 ensures Reported(x, ids + {id}, alerts, t, today, checkedAt) {
      if x in fired { assert Reported(x, ids, alerts, t, today, checkedAt); }
    }
    forall i, j | 0 <= i < j < |fired2| ensures fired2[i].alert.id != fired2[j].alert.id {
      assert fired2[i] in fired && Reported(fired2[i], ids, alerts, t, today, checkedAt);
    }
  }

  function Mark(alerts: Rows, fired: seq<Triggered>, now: int): Rows
    decreases |fired|
  {
    if fired == [] then alerts else
    var id := fired[0].alert.id;
    Mark(if id in alerts then alerts[id := alerts[id].(lastTriggeredAt := Some(now))] else alerts, fired[1..], now)
  }

  /** Values in order of first occurrence, as in [...new Set(xs)]. */
  function Unique(xs: seq<string>): seq<string> {
    if xs == [] then [] else
    var u := Unique(xs[..|xs| - 1]);
    if xs[|xs| - 1] in u then u else u + [xs[|xs| - 1]]
  }

  lemma {:induction false} UniqueKeepsAll(xs: seq<string>)
    ensures forall x :: x in Unique(xs) <==> x in xs
    ensures forall i, j :: 0 <= i < j < |Unique(xs)| ==> Unique(xs)[i] != Unique(xs)[j]
  {
    if xs != [] {
      UniqueKeepsAll(xs[..|xs| - 1]);
      assert xs == xs[..|xs| - 1] + [xs[|xs| - 1]];
    }
  }

  function AllEmails(fired: seq<Triggered>): seq<string> {
    if fired == [] then [] else fired[0].alert.recipients + AllEmails(fired[1..])
  }

  function EventOf(x: Triggered, emails: seq<string>, now: int): AlertEvent {
    AlertEvent(x.alert.id, x.currentValue, x.alert.threshold, x.alert.condition, emails, now)
  }

  function EventsOf(fired: seq<Triggered>, emails: seq<string>, now: int): (es: seq<AlertEvent>)
    ensures |es| == |fired|
    ensures forall i :: 0 <= i < |fired| ==> es[i] == EventOf(fired[i], emails, now)
  {
    if fired == [] then [] else [EventOf(fired[0], emails, now)] + EventsOf(fired[1..], emails, now)
  }

  lemma {:induction false} MarkAppend(alerts: Rows, fired: seq<Triggered>, x: Triggered, now: int)
    ensures Mark(alerts, fired + [x], now) ==
            var m := Mark(alerts, fired, now); var id := x.alert.id;
            if id in m then m[id := m[id].(lastTriggeredAt := Some(now))] else m
    decreases |fired|
  {
    if fired == [] {
      assert (fired + [x])[1..] == [];
    } else {
      var id := fired[0].alert.id;
      var alerts1 := if id in alerts then alerts[id := alerts[id].(lastTriggeredAt := Some(now))] else alerts;
      assert (fired + [x])[1..] == fired[1..] + [x];
      MarkAppend(alerts1, fired[1..], x, now);
    }
  }

  lemma {:induction false} MarkAt(alerts: Rows, fired: seq<Triggered>, now: int)
    ensures Mark(alerts, fired, now).Keys == alerts.Keys
    ensures forall id :: id in alerts && IsFired(fired, id) ==>
              Mark(alerts, fired, now)[id] == alerts[id].(lastTriggeredAt := Some(now))
    ensures forall id :: id in alerts && !IsFired(fired, id) ==> Mark(alerts, fired, now)[id] == alerts[id]
    decreases |fired|
  {
    if fired != [] {
      var id0 := fired[0].alert.id;
      var alerts1 := if id0 in alerts then alerts[id0 := alerts[id0].(lastTriggeredAt := Some(now))] else alerts;
      MarkAt(alerts1, fired[1..], now);
      forall id | id in alerts
        ensures IsFired(fired, id) <==> id == id0 || IsFired(fired[1..], id)
      {
        assert fired == [fired[0]] + fired[1..];
        if id == id0 { assert fired[0] in fired; }
      }
    }
  }

  /** Event by event: the alert, its sum, threshold and condition, everyone to be told once, and the time. */
  ghost predicate Records(es: seq<AlertEvent>, written: seq<Triggered>, fired: seq<Triggered>, now: int) {
    |es| == |written| && forall i :: 0 <= i < |es| ==> RecordsOne(es[i], written[i], fired, now)
  }

  ghost predicate RecordsOne(e: AlertEvent, x: Triggered, fired: seq<Triggered>, now: int) {
    e.alertId == x.alert.id && e.triggeredValue == x.currentValue && e.thresholdValue == x.alert.threshold
    && e.condition == x.alert.condition && e.notifiedAt == now
    && (forall m :: m in e.emailsSent <==> exists y :: y in fired && m in y.alert.recipients)
    && forall i, j :: 0 <= i < j < |e.emailsSent| ==> e.emailsSent[i] != e.emailsSent[j]
  }

  lemma {:induction false} EmailsOfAll(fired: seq<Triggered>)
    ensures forall m :: m in AllEmails(fired) <==> exists y :: y in fired && m in y.alert.recipients
  {
    if fired != [] {
      EmailsOfAll(fired[1..]);
      assert fired == [fired[0]] + fired[1..];
      forall m ensures m in AllEmails(fired) <==> exists y :: y in fired && m in y.alert.recipients {
        if m in fired[0].alert.recipients { assert fired[0] in fired; }
      }
    }
  }

  lemma EventsRecord(written: seq<Triggered>, fired: seq<Triggered>, now: int)
    ensures Records(EventsOf(written, Unique(AllEmails(fired)), now), written, fired, now)
  {
    hide Unique, AllEmails, EventsOf;
    EmailsOfAll(fired);
    UniqueKeepsAll(AllEmails(fired));
  }

  /** Of 2k + 2 statements, the first k + 1 alerts have their event and their mark; with one more the next has its event. */
  lemma StatementsDone(alerts: Rows, fired: seq<Triggered>, t: Table, today: string, checkedAt: string -> int, now: int, done: nat)
    requires Usable(today) && FiredAmong(fired, ActiveIds(alerts), alerts, t, today, checkedAt)
    ensures |Written(fired, done)| == if 2 * |fired| <= done then |fired| else (done + 1) / 2
    ensures Mark(alerts, Marked(fired, done), now).Keys == alerts.Keys
    ensures forall k :: 0 <= k < |fired| ==>
              fired[k].alert.id in alerts && Mark(alerts, Marked(fired, done), now)[fired[k].alert.id].lastTriggeredAt ==
              if 2 * k + 2 <= done then Some(now) else alerts[fired[k].alert.id].lastTriggeredAt
  {
    hide Usable, CheckOne, Mark;
    MarkAt(alerts, Marked(fired, done), now);
    forall k | 0 <= k < |fired|
      ensures fired[k].alert.id in alerts && (IsFired(Marked(fired, done), fired[k].alert.id) <==> 2 * k + 2 <= done)
    {
      assert fired[k] in fired && Reported(fired[k], ActiveIds(alerts), alerts, t, today, checkedAt);
      MarkedExactly(fired, done, k);
    }
  }

  function Min(a: nat, b: nat): nat { if a < b then a else b }

  /** Those of the reports whose event is among the first `done` statements: event, mark, event, mark, and so on. */
  function Written(fired: seq<Triggered>, done: nat): seq<Triggered> { fired[..Min(|fired|, (done + 1) / 2)] }

  /** Those whose mark is among them as well. */
  function Marked(fired: seq<Triggered>, done: nat): seq<Triggered> { fired[..Min(|fired|, done / 2)] }

  // ---------- grouping ----------

  function Select(rows: seq<Alert>, periodType: string): seq<Alert> {
    if rows == [] then [] else
    Select(rows[..|rows| - 1], periodType) + (if rows[|rows| - 1].periodType == periodType then [rows[|rows| - 1]] else [])
  }

  function Ids(rows: seq<Alert>): set<string> { set a | a in rows :: a.id }

  ghost predicate DistinctIds(rows: seq<Alert>) { forall i, j :: 0 <= i < j < |rows| ==> rows[i].id != rows[j].id }

  lemma {:induction false} SelectKeeps(rows: seq<Alert>, periodType: string)
    ensures forall a :: a in Select(rows, periodType) <==> a in rows && a.periodType == periodType
    ensures DistinctIds(rows) ==> DistinctIds(Select(rows, periodType))
  {
    if rows != [] {
      var n := |rows| - 1;
      SelectKeeps(rows[..n], periodType);
      assert rows == rows[..n] + [rows[n]];
      var s := Select(rows[..n], periodType);
      if DistinctIds(rows) {
        forall i | 0 <= i < |s| ensures s[i].id != rows[n].id { assert s[i] in rows[..n]; }
      }
    }
  }

  lemma SelectStep(rows: seq<Alert>, n: nat)
    requires n < |rows|
    ensures rows[..n + 1] == rows[..n] + [rows[n]]
    ensures forall p :: Select(rows[..n + 1], p) == Select(rows[..n], p) + (if rows[n].periodType == p then [rows[n]] else [])
  {
    assert rows[..n + 1][..n] == rows[..n];
  }

  lemma {:induction false} SelectNone(rows: seq<Alert>, periodType: string)
    requires forall a :: a in rows ==> a.periodType != periodType
    ensures Select(rows, periodType) == []
  {
    if rows != [] {
      assert rows == rows[..|rows| - 1] + [rows[|rows| - 1]];
      SelectNone(rows[..|rows| - 1], periodType);
    }
  }

  function Keys(group: seq<Alert>): (ks: seq<string>)
    ensures |ks| == |group| && forall i :: 0 <= i < |group| ==> ks[i] == group[i].metricKey
  {
    seq(|group|, i requires 0 <= i < |group| => group[i].metricKey)
  }

  ghost predicate Listing(rows: seq<Alert>, alerts: Rows) {
    DistinctIds(rows) && (forall a :: a in rows ==> a.id in alerts && alerts[a.id] == a) && Ids(rows) == ActiveIds(alerts)
  }

  /** The grouped prior: an empty record unless some condition of the group needs it. */
  predicate NeedsPrior(group: seq<Alert>) { exists a :: a in group && IsPercent(a) }

  lemma GroupedIsAlone(t: Table, today: string, periodType: string, group: seq<Alert>, a: Alert, at: int)
    requires Usable(today) && a in group && a.periodType == periodType
    ensures IsRange(PeriodRange(periodType, today))
    ensures var r := PeriodRange(periodType, today); IsRange(ComputePriorPeriod(r.from, r.to))
    ensures var r := PeriodRange(periodType, today); var keys := Unique(Keys(group));
            var current := ValueOf(Summary(t, r, keys), a.metricKey);
            var prior := if NeedsPrior(group) then Summary(t, ComputePriorPeriod(r.from, r.to), keys) else map[];
            CheckOne(t, today, a, at) == if !WithinCooldown(a, at) && Evaluate(a, current, ValueOf(prior, a.metricKey))
                                         then Some(Triggered(a, current)) else None
  {
    hide Summary, ComputePriorPeriod, PeriodRange, ParseDate, YearOf;
    RangesAreDates(periodType, today);
    var r, keys := PeriodRange(periodType, today), Unique(Keys(group));
    UniqueKeepsAll(Keys(group));
    var i :| 0 <= i < |group| && group[i] == a;
    assert Keys(group)[i] == a.metricKey;
    SummaryAlone(t, r, keys, a.metricKey);
    SummaryAlone(t, ComputePriorPeriod(r.from, r.to), keys, a.metricKey);
  }

  // ---------- the run ----------

  class AlertChecker {
    var alerts: Rows
    var events: seq<AlertEvent>

    constructor ()
      ensures alerts == map[] && events == []
    {
      alerts, events := map[], [];
    }

    method FindActive() returns (rows: seq<Alert>)
      requires Keyed(alerts)
      ensures Listing(rows, alerts)
    {
      rows := [];
      var left := alerts.Keys;
      while left != {}
        invariant left <= alerts.Keys
        invariant DistinctIds(rows)
        invariant forall a :: a in rows ==> a.id in alerts && alerts[a.id] == a && a.active && a.id !in left
        invariant forall id :: id in alerts && alerts[id].active && id !in left ==> alerts[id] in rows
        decreases |left|
      {
        var id :| id in left;
        left := left - {id};
        if alerts[id].active {
          rows := rows + [alerts[id]];
        }
      }
      assert forall id :: id in ActiveIds(alerts) ==> alerts[id] in rows;
    }

    method GroupByPeriod(rows: seq<Alert>) returns (order: seq<string>, byPeriod: map<string, seq<Alert>>)
      ensures forall i, j :: 0 <= i < j < |order| ==> order[i] != order[j]
      ensures forall p :: p in order <==> p in byPeriod
      ensures forall p :: p in byPeriod ==> byPeriod[p] == Select(rows, p)
      ensures forall a :: a in rows ==> a.periodType in byPeriod
    {
      hide Select;
      order, byPeriod := [], map[];
      for n := 0 to |rows|
        invariant forall i, j :: 0 <= i < j < |order| ==> order[i] != order[j]
        invariant forall p :: p in order <==> p in byPeriod
        invariant forall p :: p in byPeriod ==> byPeriod[p] == Select(rows[..n], p)
        invariant forall a :: a in rows[..n] ==> a.periodType in byPeriod
      {
        var key := rows[n].periodType;
        SelectStep(rows, n);
        if key !in byPeriod {
          SelectNone(rows[..n], key);
          order, byPeriod := order + [key], byPeriod[key := []];
        }
        byPeriod := byPeriod[key := byPeriod[key] + [rows[n]]];
      }
      assert rows[..|rows|] == rows;
    }

    /** One group: a single summary, and a single prior summary when a condition needs one. */
    method CheckGroup(t: Table, today: string, checkedAt: string -> int, periodType: string, group: seq<Alert>,
                      fired: seq<Triggered>, ghost ids: set<string>) returns (more: seq<Triggered>)
      requires Usable(today) && Keyed(alerts) && FiredAmong(fired, ids, alerts, t, today, checkedAt)
      requires DistinctIds(group)
      requires forall a :: a in group ==> a.id in alerts && alerts[a.id] == a && a.periodType == periodType && a.id !in ids
      ensures FiredAmong(more, ids + Ids(group), alerts, t, today, checkedAt)
    {
      hide FiredAmong, CheckOne, Summary, ComputePriorPeriod, PeriodRange, Evaluate, Unique, ParseDate, YearOf;
      RangesAreDates(periodType, today);
      var range := PeriodRange(periodType, today);
      var metricKeys := Unique(Keys(group));
      var current := Summary(t, range, metricKeys);
      var needsPrior := NeedsPrior(group);
      var prior := map[];
      if needsPrior {
        var priorRange := ComputePriorPeriod(range.from, range.to);
        prior := Summary(t, priorRange, metricKeys);
      }
      more := fired;
      assert ids + Ids(group[..0]) == ids;
      for n := 0 to |group|
        invariant FiredAmong(more, ids + Ids(group[..n]), alerts, t, today, checkedAt)
      {
        var a := group[n];
        var at := checkedAt(a.id);
        GroupedIsAlone(t, today, periodType, group, a, at);
        FiredMore(more, ids + Ids(group[..n]), alerts, t, today, checkedAt, a.id);
        assert ids + Ids(group[..n]) + {a.id} == ids + Ids(group[..n + 1]) by {
          assert group[..n + 1] == group[..n] + [a];
        }
        if !WithinCooldown(a, at) {
          var currentValue := ValueOf(current, a.metricKey);
          if Evaluate(a, currentValue, ValueOf(prior, a.metricKey)) {
            more := more + [Triggered(a, currentValue)];
          }
        }
        assert more == more + [];
      }
      assert group[..|group|] == group;
    }

    /**
     The grouped run reports exactly what one query per alert would, with the same values, and records
     it as far as its statements get through.
     */
    method RunChecks(t: Table, today: string, checkedAt: string -> int, now: int, done: nat) returns (fired: seq<Triggered>)
      requires Usable(today) && Keyed(alerts)
      modifies this
      ensures FiredAmong(fired, ActiveIds(old(alerts)), old(alerts), t, today, checkedAt)
      ensures alerts == Mark(old(alerts), Marked(fired, done), now)
      ensures events == old(events) + EventsOf(Written(fired, done), Unique(AllEmails(fired)), now)
      ensures Fires(fired, old(alerts), t, DayOf(today), checkedAt)
      ensures |old(events)| <= |events| && Records(events[|old(events)|..], Written(fired, done), fired, now)
      ensures |events| - |old(events)| == if 2 * |fired| <= done then |fired| else (done + 1) / 2
      ensures alerts.Keys == old(alerts).Keys
      ensures forall k :: 0 <= k < |fired| ==>
        fired[k].alert.id in alerts && alerts[fired[k].alert.id].lastTriggeredAt ==
        if 2 * k + 2 <= done then Some(now) else old(alerts)[fired[k].alert.id].lastTriggeredAt
    {
      hide Fires, Records, Usable, Marked, Written, FiredAmong, CheckOne, Select, Mark, EventsOf, Unique, AllEmails;
      var rows := FindActive();
      var order, byPeriod := GroupByPeriod(rows);
      fired := [];
      FiredNone(alerts, t, today, checkedAt);
      ghost var ids: set<string> := {};
      for m := 0 to |order|
        invariant alerts == old(alerts) && events == old(events)
        invariant ids == IdsOfPeriods(rows, order[..m])
        invariant FiredAmong(fired, ids, alerts, t, today, checkedAt)
      {
        var p := order[m];
        SelectKeeps(rows, p);
        NextPeriod(rows, order, m);
        fired := CheckGroup(t, today, checkedAt, p, byPeriod[p], fired, ids);
        ids := ids + Ids(byPeriod[p]);
      }
      assert order[..|order|] == order;
      assert ids == ActiveIds(alerts) by { AllPeriods(rows, order); }
      FiredFires(fired, alerts, t, today, checkedAt);
      EventsRecord(Written(fired, done), fired, now);
      StatementsDone(alerts, fired, t, today, checkedAt, now, done);
      Persist(fired, now, done);
    }

    /**
     For each alert that fired its event, then its mark. The first `done` of these statements get
     through; the next one fails and ends the run.
     */
    method Persist(fired: seq<Triggered>, now: int, done: nat)
      modifies this
      ensures alerts == Mark(old(alerts), Marked(fired, done), now)
      ensures events == old(events) + EventsOf(Written(fired, done), Unique(AllEmails(fired)), now)
    {
      hide Mark, Unique, AllEmails, EventsOf;
      var allRecipients := Unique(AllEmails(fired));
      NothingFired(alerts, allRecipients, now);
      assert fired[..0] == [];
      for n := 0 to |fired|
        invariant 2 * n <= done || n == 0
        invariant alerts == Mark(old(alerts), fired[..n], now)
        invariant events == old(events) + EventsOf(fired[..n], allRecipients, now)
      {
        var x := fired[n];
        assert fired[..n + 1] == fired[..n] + [x];
        if done <= 2 * n {
          return;
        }
        events := events + [AlertEvent(x.alert.id, x.currentValue, x.alert.threshold, x.alert.condition, allRecipients, now)];
        EventsAppend(fired[..n], x, allRecipients, now);
        if done <= 2 * n + 1 {
          return;
        }
        MarkAppend(old(alerts), fired[..n], x, now);
        if x.alert.id in alerts {
          alerts := alerts[x.alert.id := alerts[x.alert.id].(lastTriggeredAt := Some(now))];
        }
      }
      assert fired[..|fired|] == fired;
    }
  }

  lemma NothingFired(alerts: Rows, emails: seq<string>, now: int)
    ensures Mark(alerts, [], now) == alerts && EventsOf([], emails, now) == []
  {
  }

  lemma EventsAppend(fired: seq<Triggered>, x: Triggered, emails: seq<string>, now: int)
    ensures EventsOf(fired + [x], emails, now) == EventsOf(fired, emails, now) + [EventOf(x, emails, now)]
  {
    hide EventsOf;
    var a, b := EventsOf(fired + [x], emails, now), EventsOf(fired, emails, now) + [EventOf(x, emails, now)];
    forall i | 0 <= i < |a| ensures a[i] == b[i] {
      if i < |fired| { assert (fired + [x])[i] == fired[i]; }
    }
  }

  lemma FiredNone(alerts: Rows, t: Table, today: string, checkedAt: string -> int)
    requires Usable(today)
    ensures FiredAmong([], {}, alerts, t, today, checkedAt)
  {
  }

  ghost function IdsOfPeriods(rows: seq<Alert>, periods: seq<string>): set<string> {
    set a | a in rows && a.periodType in periods :: a.id
  }

  lemma NextPeriod(rows: seq<Alert>, order: seq<string>, m: nat)
    requires m < |order| && DistinctIds(rows) && forall i, j :: 0 <= i < j < |order| ==> order[i] != order[j]
    ensures forall a :: a in rows && a.periodType == order[m] ==> a.id !in IdsOfPeriods(rows, order[..m])
    ensures IdsOfPeriods(rows, order[..m + 1]) == IdsOfPeriods(rows, order[..m]) + Ids(Select(rows, order[m]))
  {
    SelectKeeps(rows, order[m]);
    assert order[..m + 1] == order[..m] + [order[m]];
    forall a, b | a in rows && b in rows && a.id == b.id ensures a == b {
      var i :| 0 <= i < |rows| && rows[i] == a;
      var j :| 0 <= j < |rows| && rows[j] == b;
    }
  }

  lemma AllPeriods(rows: seq<Alert>, order: seq<string>)
    requires forall a :: a in rows ==> a.periodType in order
    ensures IdsOfPeriods(rows, order) == Ids(rows)
  {
  }

  // ---------- cooldown over runs ----------

  /** lost are the indices of the events whose mark was not written. */
  datatype State = State(alerts: Rows, events: seq<AlertEvent>, clock: int, lost: set<int>)

  datatype Step =
    | Check(t: Table, today: string, checkedAt: string -> int, now: int, fired: seq<Triggered>, done: nat)
    | Edit(alerts: Rows, at: int)

  /** The last event of the run had no mark. */
  predicate Stopped(fired: seq<Triggered>, done: nat) { |Marked(fired, done)| < |Written(fired, done)| }

  /** A run as RunChecks performs it, or an edit of the alerts that leaves cooldowns and their clocks alone. */
  ghost predicate Next(s: State, step: Step, u: State) {
    match step
    case Check(t, today, checkedAt, now, fired, done) =>
      Usable(today) && FiredAmong(fired, ActiveIds(s.alerts), s.alerts, t, today, checkedAt)
      && (forall id :: s.clock <= checkedAt(id) <= now)
      && u.alerts == Mark(s.alerts, Marked(fired, done), now) && u.clock == now
      && u.events == s.events + EventsOf(Written(fired, done), Unique(AllEmails(fired)), now)
      && u.lost == s.lost + if Stopped(fired, done) then {|u.events| - 1} else {}
    case Edit(alerts, at) =>
      s.clock <= at && Keyed(alerts) && u == State(alerts, s.events, at, s.lost)
      && (forall id :: id in alerts && id in s.alerts ==>
            alerts[id].cooldownHours == s.alerts[id].cooldownHours && alerts[id].lastTriggeredAt == s.alerts[id].lastTriggeredAt)
      && (forall id :: id in alerts && id !in s.alerts ==> forall e :: e in s.events ==> e.alertId != id)
  }

  /** Event i carries a time its alert remembers, unless its mark was lost. */
  ghost predicate Remembered(s: State, i: int)
    requires 0 <= i < |s.events|
  {
    var e := s.events[i];
    e.notifiedAt <= s.clock
    && (i !in s.lost && e.alertId in s.alerts ==>
          s.alerts[e.alertId].lastTriggeredAt.Some? && e.notifiedAt <= s.alerts[e.alertId].lastTriggeredAt.value)
  }

  ghost predicate Timed(s: State, cooldown: string -> int) {
    Keyed(s.alerts)
    && (forall id :: id in s.alerts ==> s.alerts[id].cooldownHours == cooldown(id))
    && (forall i :: i in s.lost ==> 0 <= i < |s.events|)
    && (forall i :: 0 <= i < |s.events| ==> Remembered(s, i))
  }

  /** An event whose mark was written is followed by the next one of its alert no sooner than the cooldown. */
  ghost predicate Spaced(events: seq<AlertEvent>, lost: set<int>, cooldown: string -> int) {
    forall i, j :: 0 <= i < j < |events| && i !in lost && events[i].alertId == events[j].alertId ==>
      events[j].notifiedAt - events[i].notifiedAt >= cooldown(events[i].alertId) * MS_PER_HOUR
  }

  lemma FiredIsReady(s: State, step: Step, u: State, cooldown: string -> int, k: nat, i: nat)
    requires Next(s, step, u) && step.Check? && Timed(s, cooldown) && k < |step.fired|
    requires i < |s.events| && i !in s.lost && s.events[i].alertId == step.fired[k].alert.id
    ensures step.now - s.events[i].notifiedAt >= cooldown(s.events[i].alertId) * MS_PER_HOUR
  {
    hide CurrentValue, PriorValue, Usable, Evaluate, Mark, EventsOf, Stopped, Written, Marked;
    var x := step.fired[k];
    assert Reported(x, ActiveIds(s.alerts), s.alerts, step.t, step.today, step.checkedAt);
    assert !WithinCooldown(s.alerts[x.alert.id], step.checkedAt(x.alert.id));
    assert Remembered(s, i);
  }

  lemma MarksKeep(s: State, step: Step, u: State, cooldown: string -> int)
    requires Next(s, step, u) && Timed(s, cooldown) && step.Check?
    ensures Keyed(u.alerts) && forall id :: id in u.alerts ==> u.alerts[id].cooldownHours == cooldown(id)
    ensures u.alerts.Keys == s.alerts.Keys && s.clock <= u.clock
    ensures forall id :: id in u.alerts ==>
              u.alerts[id].lastTriggeredAt == if IsFired(Marked(step.fired, step.done), id) then Some(u.clock)
                                              else s.alerts[id].lastTriggeredAt
  {
    hide Usable, Mark, EventsOf, FiredAmong, Marked, Written, Remembered, IsFired;
    assert s.clock <= step.checkedAt("") <= step.now;
    MarkAt(s.alerts, Marked(step.fired, step.done), step.now);
  }

  /** What the events of a run are, and which of them has lost its mark. */
  lemma NewEvents(s: State, step: Step, u: State, i: nat)
    requires Next(s, step, u) && step.Check? && |s.events| <= i < |u.events|
    ensures var k := i - |s.events|;
            k < |step.fired| && u.events[i].alertId == step.fired[k].alert.id && u.events[i].notifiedAt == u.clock
            && (k < |Marked(step.fired, step.done)| || i in u.lost)
  {
    hide Usable, Mark, FiredAmong, EventsOf, Unique, AllEmails;
  }

  lemma StepTimed(s: State, step: Step, u: State, cooldown: string -> int)
    requires Next(s, step, u) && Timed(s, cooldown)
    requires step.Edit? ==> forall id :: id in step.alerts ==> step.alerts[id].cooldownHours == cooldown(id)
    ensures Timed(u, cooldown)
  {
    if step.Edit? {
      hide FiredAmong, Usable;
      forall i | 0 <= i < |u.events| ensures Remembered(u, i) { assert Remembered(s, i) && u.events[i] in s.events; }
    } else {
      hide Next, Remembered, Marked, IsFired;
      MarksKeep(s, step, u, cooldown);
      LostGrows(s, step, u);
      forall i | 0 <= i < |u.events| ensures Remembered(u, i) { EventRemembered(s, step, u, cooldown, i); }
    }
  }

  lemma LostGrows(s: State, step: Step, u: State)
    requires Next(s, step, u) && step.Check?
    ensures s.events <= u.events && s.lost <= u.lost && forall i :: i in u.lost - s.lost ==> |s.events| <= i < |u.events|
  {
    hide Usable, Mark, FiredAmong, EventsOf, Unique, AllEmails;
  }

  lemma EventRemembered(s: State, step: Step, u: State, cooldown: string -> int, i: nat)
    requires Next(s, step, u) && Timed(s, cooldown) && step.Check? && i < |u.events|
    ensures Remembered(u, i)
  {
    hide Next, Marked;
    MarksKeep(s, step, u, cooldown);
    LostGrows(s, step, u);
    if i < |s.events| {
      assert Remembered(s, i);
    } else {
      NewEvents(s, step, u, i);
      MarkedIsFired(step.fired, step.done, i - |s.events|);
    }
  }

  lemma MarkedIsFired(fired: seq<Triggered>, done: nat, k: nat)
    requires k < |fired|
    ensures k < |Marked(fired, done)| ==> IsFired(Marked(fired, done), fired[k].alert.id)
  {
    if k < |Marked(fired, done)| { assert Marked(fired, done)[k] == fired[k] && fired[k] in Marked(fired, done); }
  }

  lemma OneEventEach(s: State, step: Step)
    requires step.Check? && Usable(step.today)
    requires FiredAmong(step.fired, ActiveIds(s.alerts), s.alerts, step.t, step.today, step.checkedAt)
    ensures forall i, j :: 0 <= i < j < |step.fired| ==> step.fired[i].alert.id != step.fired[j].alert.id
  {
  }

  lemma StepSpaced(s: State, step: Step, u: State, cooldown: string -> int)
    requires Next(s, step, u) && Timed(s, cooldown) && Spaced(s.events, s.lost, cooldown)
    ensures Spaced(u.events, u.lost, cooldown)
  {
    if step.Check? {
      OneEventEach(s, step);
      hide Next, Timed;
      LostGrows(s, step, u);
      forall i, j | 0 <= i < j < |u.events| && i !in u.lost && u.events[i].alertId == u.events[j].alertId
        ensures u.events[j].notifiedAt - u.events[i].notifiedAt >= cooldown(u.events[i].alertId) * MS_PER_HOUR
      {
        if j >= |s.events| {
          NewEvents(s, step, u, j);
          if i < |s.events| {
            FiredIsReady(s, step, u, cooldown, j - |s.events|, i);
            NowIsClock(s, step, u);
          } else {
            NewEvents(s, step, u, i);
          }
        }
      }
    }
  }

  lemma NowIsClock(s: State, step: Step, u: State)
    requires Next(s, step, u) && step.Check?
    ensures u.clock == step.now
  {
  }

  ghost predicate RunOf(ss: seq<State>, steps: seq<Step>) {
    |ss| == |steps| + 1 && forall i :: 0 <= i < |steps| ==> Next(ss[i], steps[i], ss[i + 1])
  }

  /**
   Over every serial run of checks that may stop at any statement and be repeated, with a clock that
   does not go back and fixed cooldowns: events are spaced but for those whose mark was lost.
   */
  lemma {:induction false} CooldownHolds(ss: seq<State>, steps: seq<Step>, cooldown: string -> int, n: nat)
    requires RunOf(ss, steps) && n <= |steps| && Timed(ss[0], cooldown) && ss[0].events == []
    requires forall i :: 0 <= i < n && steps[i].Edit? ==>
               forall id :: id in steps[i].alerts ==> steps[i].alerts[id].cooldownHours == cooldown(id)
    ensures Timed(ss[n], cooldown) && Spaced(ss[n].events, ss[n].lost, cooldown)
  {
    hide Timed, Next;
    if n > 0 {
      CooldownHolds(ss, steps, cooldown, n - 1);
      assert Next(ss[n - 1], steps[n - 1], ss[n - 1 + 1]);
      StepTimed(ss[n - 1], steps[n - 1], ss[n], cooldown);
      StepSpaced(ss[n - 1], steps[n - 1], ss[n], cooldown);
    }
  }

  /**
   A check repeated within the cooldown on the same table: of the alerts whose event was written, it
   fires exactly the one whose mark was lost.
   */
  lemma RetryRepeatsExactly(s: State, step: Step, u: State, retry: Step, v: State, k: nat)
    requires Keyed(s.alerts) && Next(s, step, u) && Next(u, retry, v) && step.Check? && retry.Check?
    requires retry.t == step.t && retry.today == step.today && k < |Written(step.fired, step.done)|
    requires retry.now - step.now < step.fired[k].alert.cooldownHours * MS_PER_HOUR
    ensures IsFired(retry.fired, step.fired[k].alert.id) <==> k >= |Marked(step.fired, step.done)|
  {
    hide Usable, CurrentValue, PriorValue, Evaluate, EventsOf, Unique, AllEmails, Mark, Stopped, Marked;
    var x := step.fired[k];
    var id := x.alert.id;
    assert x in step.fired && Reported(x, ActiveIds(s.alerts), s.alerts, step.t, step.today, step.checkedAt);
    MarkAt(s.alerts, Marked(step.fired, step.done), step.now);
    MarkedExactly(step.fired, step.done, k);
    var a := u.alerts[id];
    assert id in ActiveIds(u.alerts);
    assert step.checkedAt(id) <= step.now <= retry.checkedAt(id) <= retry.now;
    if k >= |Marked(step.fired, step.done)| {
      var again := CheckOne(step.t, step.today, a, retry.checkedAt(id));
      assert again.Some? && again.value in retry.fired;
    } else {
      assert WithinCooldown(a, retry.checkedAt(id));
      forall y | y in retry.fired ensures y.alert.id != id {
        assert Reported(y, ActiveIds(u.alerts), u.alerts, step.t, step.today, retry.checkedAt);
      }
    }
  }

  lemma MarkedExactly(fired: seq<Triggered>, done: nat, k: nat)
    requires k < |fired| && forall i, j :: 0 <= i < j < |fired| ==> fired[i].alert.id != fired[j].alert.id
    ensures IsFired(Marked(fired, done), fired[k].alert.id) <==> k < |Marked(fired, done)|
  {
    MarkedIsFired(fired, done, k);
  }
}
