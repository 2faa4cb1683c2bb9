/**
 Chart periods: the truncation PostgreSQL applies to a day, the label generator of the metrics
 service that has to agree with it, and exactly when it does.
 */
module Periods {
  import opened Calendar

  datatype Granularity = Day | Week | Month

  /** DATE_TRUNC in a UTC session: the day, the Monday of its ISO week, the first of its month. */
  function Trunc(d: int, g: Granularity): int {
    match g
    case Day => d
    case Week => d - (d + 3) % 7
    case Month => FirstOfMonth(MonthIndex(d))
  }

  ghost predicate Aligned(d: int, g: Granularity) { Trunc(d, g) == d }

  // ---------- the generator, with the Date operations it uses ----------

  function StartDay(from: int, g: Granularity): int {
    match g
    case Day => from
    case Week =>
      var dow := WeekDay(from);
      var daysToMonday := if dow == 0 then -6 else 1 - dow;
      SetUtcDate(from, DateOf(from) + daysToMonday)
    case Month => DateUtc(YearOf(from), MonthOf(from) - 1, 1)
  }

  function Next(d: int, g: Granularity): int {
    match g
    case Day => SetUtcDate(d, DateOf(d) + 1)
    case Week => SetUtcDate(d, DateOf(d) + 7)
    case Month => SetUtcMonth(d, MonthOf(d))
  }

  lemma NextAlignedMonth(k: int)
    ensures FirstOfMonth(k) < FirstOfMonth(k + 1)
    ensures Next(FirstOfMonth(k), Month) == FirstOfMonth(k + 1) && Aligned(FirstOfMonth(k + 1), Month)
    ensures forall x :: FirstOfMonth(k) <= x < FirstOfMonth(k + 1) ==> Trunc(x, Month) == FirstOfMonth(k)
  {
    FirstOfMonthStep(k);
    SetUtcMonthSteps(k);
    FirstOfMonthIndex(k + 1);
    forall x | FirstOfMonth(k) <= x < FirstOfMonth(k + 1) ensures Trunc(x, Month) == FirstOfMonth(k) {
      MonthIndexUnique(x, k);
    }
  }

  /** An aligned day is followed by the next aligned day and by nothing in between. */
  lemma NextAligned(d: int, g: Granularity)
    requires Aligned(d, g)
    ensures d < Next(d, g) && Aligned(Next(d, g), g)
    ensures forall x :: d <= x < Next(d, g) ==> Trunc(x, g) == d
  {
    match g
    case Day => SetUtcDateShifts(d, 1);
    case Week => SetUtcDateShifts(d, 7);
    case Month => NextAlignedMonth(MonthIndex(d));
  }

  lemma TruncBelow(d: int, g: Granularity)
    ensures Trunc(d, g) <= d && Aligned(Trunc(d, g), g)
  {
    if g == Month {
      MonthBounds(d);
      FirstOfMonthIndex(MonthIndex(d));
    }
  }

  lemma TruncMonotone(a: int, b: int, g: Granularity)
    requires a <= b
    ensures Trunc(a, g) <= Trunc(b, g)
  {
    if g == Month {
      MonthIndexMonotone(a, b);
      if MonthIndex(a) < MonthIndex(b) { FirstOfMonthOrder(MonthIndex(a), MonthIndex(b)); }
    }
  }

  /** Date.UTC moves the years 0 to 99 to the twentieth century; only the month branch calls it. */
  predicate StartsInPlace(from: int, g: Granularity) { g == Month ==> !(0 <= YearOf(from) <= 99) }

  lemma StartOfMonth(from: int)
    ensures Aligned(StartDay(from, Month), Month)
    ensures StartsInPlace(from, Month) ==> StartDay(from, Month) == Trunc(from, Month)
    ensures !StartsInPlace(from, Month) ==> from < StartDay(from, Month)
  {
    hide YearOf, MonthOf, FirstOfMonth, MakeDay;
    var y, m := YearOf(from), MonthOf(from);
    var z := if 0 <= y <= 99 then 1900 + y else y;
    var k := 12 * z + m - 1;
    FirstOfMonthIsMakeDay(z, m - 1);
    FirstOfMonthIndex(k);
    if z != y { LateMonth(from, y, z, m); }
  }

  lemma LateMonth(d: int, y: int, z: int, m: int)
    requires d < DayFromYear(y + 1) && y < z && 1 <= m <= 12
    ensures d < FirstOfMonth(12 * z + m - 1)
  {
    if y + 1 < z { YearOrder(y + 1, z); }
    assert (12 * z + m - 1) / 12 == z;
  }

  lemma StartDayTruncates(from: int, g: Granularity)
    ensures Aligned(StartDay(from, g), g)
    ensures StartsInPlace(from, g) ==> StartDay(from, g) == Trunc(from, g)
    ensures !StartsInPlace(from, g) ==> from < StartDay(from, g)
  {
    match g
    case Day =>
    case Week => SetUtcDateShifts(from, if WeekDay(from) == 0 then -6 else 1 - WeekDay(from));
    case Month => StartOfMonth(from);
  }

  /** The periods from an aligned day on, as the while loop visits them. */
  function PeriodDays(start: int, to: int, g: Granularity): seq<int>
    requires Aligned(start, g)
    decreases (to - start)
  {
    NextAligned(start, g);
    if start <= to then [start] + PeriodDays(Next(start, g), to, g) else []
  }

  function LabelDays(from: int, to: int, g: Granularity): seq<int> {
    StartDayTruncates(from, g);
    PeriodDays(StartDay(from, g), to, g)
  }

  function Labels(days: seq<int>): (s: seq<string>)
    ensures |s| == |days|
  {
    seq(|days|, i requires 0 <= i < |days| => IsoDate(days[i]))
  }

  /** A date followed by a time of day. With another time appended, JavaScript reads no date in it. */
  predicate HasTime(s: string) { |s| > 10 && IsDate(s[..10]) && s[10] in ['T', ' '] }

  /** The days labelled for a requested range: none when either end carries a time of day. */
  function LabelledDays(from: string, to: string, g: Granularity): seq<int> {
    if IsDate(from) && IsDate(to) then LabelDays(DayOf(from), DayOf(to), g) else []
  }

  method GeneratePeriods(from: string, to: string, g: Granularity) returns (periods: seq<string>)
    requires (IsDate(from) || HasTime(from)) && (IsDate(to) || HasTime(to))
    ensures periods == Labels(LabelledDays(from, to, g))
  {
    hide ParseDate, IsoDate, Next, StartDay, Trunc;
    periods := [];
    var fromDate := ParseDate(from);
    var toDate := ParseDate(to);
    if fromDate.None? || toDate.None? { return; }
    var current := StartDay(fromDate.value, g);
    StartDayTruncates(fromDate.value, g);
    ghost var all := PeriodDays(current, toDate.value, g);
    while current <= toDate.value
      invariant Aligned(current, g)
      invariant |periods| <= |all| && PeriodDays(current, toDate.value, g) == all[|periods|..]
      invariant forall i :: 0 <= i < |periods| ==> periods[i] == IsoDate(all[i])
      decreases toDate.value - current
    {
      NextAligned(current, g);
      assert all[|periods|] == current && all[|periods| + 1..] == all[|periods|..][1..];
      periods := periods + [IsoDate(current)];
      current := Next(current, g);
    }
  }

  // ---------- what the labels are ----------

  ghost predicate Increasing(s: seq<int>) { forall i, j :: 0 <= i < j < |s| ==> s[i] < s[j] }

  lemma {:induction false} PeriodDaysExact(start: int, to: int, g: Granularity)
    requires Aligned(start, g)
    ensures Increasing(PeriodDays(start, to, g))
    ensures forall p :: p in PeriodDays(start, to, g) <==> Aligned(p, g) && start <= p <= to
    decreases (to - start)
  {
    hide Next, Trunc;
    NextAligned(start, g);
    if start <= to {
      var next := Next(start, g);
      PeriodDaysExact(next, to, g);
      var rest := PeriodDays(next, to, g);
      forall j | 0 <= j < |rest| ensures start < rest[j] { assert rest[j] in rest; }
      assert forall p :: Aligned(p, g) && start <= p < next ==> p == start;
    }
  }

  /** Some day from `from` to `to` truncates to p. */
  ghost predicate IsTruncation(p: int, from: int, to: int, g: Granularity) {
    exists x :: from <= x <= to && Trunc(x, g) == p
  }

  ghost predicate Exact(from: int, to: int, g: Granularity) {
    forall p :: p in LabelDays(from, to, g) <==> IsTruncation(p, from, to, g)
  }

  lemma AlignedInRange(p: int, from: int, to: int, g: Granularity)
    requires from <= to
    ensures IsTruncation(p, from, to, g) <==> Aligned(p, g) && Trunc(from, g) <= p <= to
  {
    if Aligned(p, g) && Trunc(from, g) <= p <= to {
      if p < from {
        TruncMonotone(p, from, g);
        assert Trunc(from, g) == p;
      } else {
        assert Trunc(p, g) == p;
      }
    }
    if IsTruncation(p, from, to, g) {
      var x :| from <= x <= to && Trunc(x, g) == p;
      TruncBelow(x, g);
      TruncMonotone(from, x, g);
    }
  }

  /**
   The generated labels are strictly increasing. They are exactly the truncations of the days of the
   range if and only if the start stays in place, or, for a reversed range, lies after its end: a
   range reversed within one week or month still yields the period both ends share.
   */
  lemma LabelsExact(from: int, to: int, g: Granularity)
    ensures Increasing(LabelDays(from, to, g))
    ensures Exact(from, to, g) <==> if from <= to then StartsInPlace(from, g) else to < StartDay(from, g)
  {
    var start := StartDay(from, g);
    StartDayTruncates(from, g);
    PeriodDaysExact(start, to, g);
    if from <= to {
      forall p { AlignedInRange(p, from, to, g); }
      if !StartsInPlace(from, g) {
        TruncBelow(from, g);
        assert IsTruncation(Trunc(from, g), from, to, g) && Trunc(from, g) !in LabelDays(from, to, g);
      }
    } else {
      assert forall p :: !IsTruncation(p, from, to, g);
      if start <= to { assert start in LabelDays(from, to, g); }
    }
  }
}
