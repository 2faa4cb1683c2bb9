/**
 The period before a period: three functions of three services that are meant to compute the same
 thing, on millisecond times as the code has them.
 */
module PriorPeriod {
  import opened Calendar

  datatype DateRange = DateRange(from: string, to: string)

  function MsToDateString(ms: int): string { IsoDate(ms / MS_PER_DAY) }

  /** new Date(s).getTime() of a date-only string: midnight UTC. */
  function ParseMs(s: string): int
    requires IsDate(s)
  {
    DayOf(s) * MS_PER_DAY
  }

  /** Date.UTC of the three parsed parts. */
  function PartsUtcMs(s: string): int
    requires IsDate(s)
  {
    var c := CivilOf(DayOf(s));
    DateUtc(c.year, c.month - 1, c.day) * MS_PER_DAY
  }

  function ComputePriorPeriod(from: string, to: string): DateRange
    requires IsDate(from) && IsDate(to)
  {
    var startMs := PartsUtcMs(from);
    var endMs := PartsUtcMs(to);
    var durationMs := endMs - startMs + 86_400_000;
    var priorEndMs := startMs - 86_400_000;
    var priorStartMs := priorEndMs - durationMs + 86_400_000;
    DateRange(MsToDateString(priorStartMs), MsToDateString(priorEndMs))
  }

  /** Math.ceil of a quotient of integers. */
  function CeilDiv(a: int, b: int): int
    requires b > 0
  {
    -((-a) / b)
  }

  function CalcPriorPeriod(from: string, to: string): DateRange
    requires IsDate(from) && IsDate(to)
  {
    var fromMs, toMs := ParseMs(from), ParseMs(to);
    var diffDays := CeilDiv(toMs - fromMs, 86_400_000) + 1;
    var priorTo := fromMs - 86_400_000;
    var priorFrom := priorTo - (diffDays - 1) * 86_400_000;
    DateRange(MsToDateString(priorFrom), MsToDateString(priorTo))
  }

  /** shiftPeriod in its previous_period mode. */
  function ShiftPeriod(from: string, to: string): DateRange
    requires IsDate(from) && IsDate(to)
  {
    var fromMs, toMs := ParseMs(from), ParseMs(to);
    var diffMs := toMs - fromMs;
    var pTo := fromMs - 86400000;
    var pFrom := pTo - diffMs;
    DateRange(MsToDateString(pFrom), MsToDateString(pTo))
  }

  // ---------- what they compute, on day numbers ----------

  function Length(from: int, to: int): int { to - from + 1 }

  /** The range of the same length that ends the day before `from`. */
  function PriorDays(from: int, to: int): DateRange {
    DateRange(IsoDate(from - Length(from, to)), IsoDate(from - 1))
  }

  lemma CeilOfDays(a: int, b: int)
    ensures CeilDiv(b * MS_PER_DAY - a * MS_PER_DAY, MS_PER_DAY) == b - a
  {
    WholeDay(a - b);
    assert -(b * MS_PER_DAY - a * MS_PER_DAY) == (a - b) * MS_PER_DAY;
  }

  lemma CalcAndShiftAreExact(from: string, to: string)
    requires IsDate(from) && IsDate(to)
    ensures CalcPriorPeriod(from, to) == ShiftPeriod(from, to) == PriorDays(DayOf(from), DayOf(to))
  {
    hide ParseDate, IsoDate;
    var a, b := DayOf(from), DayOf(to);
    CeilOfDays(a, b);
    WholeDay(a - 1);
    WholeDay(a - Length(a, b));
  }

  /** The day Date.UTC makes of the parts of a date. */
  function PartsDay(d: int): int { DateUtc(YearOf(d), MonthOf(d) - 1, DateOf(d)) }

  lemma PartsInPlace(d: int)
    requires 0 <= YearOf(d)
    ensures YearOf(d) >= 100 ==> PartsDay(d) == d
    ensures YearOf(d) < 100 ==> DayFromYear(1900) <= PartsDay(d) <= DayFromYear(2000)
  {
    hide YearOf, MonthOf, IsLeap, DayFromYear;
    var y, m := YearOf(d), MonthOf(d);
    var z := if y <= 99 then 1900 + y else y;
    assert (m - 1) / 12 == 0 && (m - 1) % 12 + 1 == m;
    assert PartsDay(d) == MonthDay(z, m) + DateOf(d) - 1;
    if y < 100 { LateDay(z, m, DateOf(d)); }
  }

  lemma LateDay(z: int, m: int, date: int)
    requires 1900 <= z <= 1999 && 1 <= m <= 12 && 1 <= date <= 31
    ensures DayFromYear(1900) <= MonthDay(z, m) + date - 1 <= DayFromYear(2000)
  {
    if z > 1900 { YearOrder(1900, z); }
    if z < 1999 { YearOrder(z + 1, 2000); }
    YearStep(z);
  }

  lemma ComputeDays(from: string, to: string)
    requires IsDate(from) && IsDate(to)
    ensures ComputePriorPeriod(from, to) == PriorDays(PartsDay(DayOf(from)), PartsDay(DayOf(to)))
  {
    hide ParseDate, IsoDate, YearOf, MonthOf, DateOf, DateUtc;
    var a, b := PartsDay(DayOf(from)), PartsDay(DayOf(to));
    WholeDay(a - 1);
    WholeDay(a - Length(a, b));
  }

  /**
   The three agree exactly from the year 100 on. Below it Date.UTC reads the year as one of the
   twentieth century, so computePriorPeriod answers with dates nineteen centuries too late.
   */
  lemma PriorPeriodsAgree(from: string, to: string)
    requires IsDate(from) && IsDate(to) && DayOf(from) <= DayOf(to)
    ensures ComputePriorPeriod(from, to) == CalcPriorPeriod(from, to) == ShiftPeriod(from, to)
            <==> YearOf(DayOf(from)) >= 100
  {
    hide ParseDate, IsoDate, YearOf, PartsDay, ComputePriorPeriod, CalcPriorPeriod, ShiftPeriod, DayFromYear;
    var a, b := DayOf(from), DayOf(to);
    CalcAndShiftAreExact(from, to);
    ComputeDays(from, to);
    ParsedYear(from);
    ParsedYear(to);
    PartsInPlace(a);
    PartsInPlace(b);
    YearOfMonotone(a, b);
    if YearOf(a) < 100 { LateDateDiffers(PartsDay(a) - 1, a - 1); }
  }

  lemma LateDateDiffers(late: int, early: int)
    requires DayFromYear(1900) - 1 <= late <= DayFromYear(2000) && YearOf(early + 1) < 100
    ensures IsoDate(late) != IsoDate(early)
  {
    LateYear(late);
    YearOfMonotone(early, early + 1);
    ParseIsoDate(late);
    if YearOf(early) >= 0 { ParseIsoDate(early); } else { IsoDateOutOfRange(early); }
  }

  lemma LateYear(late: int)
    requires DayFromYear(1900) - 1 <= late <= DayFromYear(2000)
    ensures 1899 <= YearOf(late) <= 2000
  {
    YearStep(1899);
    YearOfUnique(DayFromYear(1899), 1899);
    YearOfMonotone(DayFromYear(1899), late);
    YearStep(2000);
    YearOfUnique(DayFromYear(2000), 2000);
    YearOfMonotone(late, DayFromYear(2000));
  }

  // ---------- length, adjacency and tiling ----------

  /**
   The prior period has the same number of days and ends the day before `from`, provided it starts
   in year 0 or later; an earlier start is cut off by slice(0, 10) and is not a date any more.
   */
  lemma PriorPeriodFits(from: string, to: string)
    requires IsDate(from) && IsDate(to) && DayOf(from) <= DayOf(to)
    ensures var r := CalcPriorPeriod(from, to);
            (IsDate(r.from) && IsDate(r.to) && DayOf(r.to) == DayOf(from) - 1 &&
             Length(DayOf(r.from), DayOf(r.to)) == Length(DayOf(from), DayOf(to)))
            <==> YearOf(DayOf(from) - Length(DayOf(from), DayOf(to))) >= 0
  {
    hide ParseDate, IsoDate, YearOf;
    var a, b := DayOf(from), DayOf(to);
    CalcAndShiftAreExact(from, to);
    ParsedYear(from);
    var p := a - Length(a, b);
    YearOfMonotone(p, a - 1);
    YearOfMonotone(a - 1, a);
    if YearOf(p) >= 0 {
      ParseIsoDate(p);
      ParseIsoDate(a - 1);
    } else {
      IsoDateOutOfRange(p);
    }
  }

  /** The period k steps back. */
  function Back(from: string, to: string, k: nat): (r: DateRange)
    requires IsDate(from) && IsDate(to)
  {
    if k == 0 then DateRange(from, to) else
    var r := Back(from, to, k - 1);
    if IsDate(r.from) && IsDate(r.to) then CalcPriorPeriod(r.from, r.to) else r
  }

  lemma {:induction false} BackDays(from: string, to: string, k: nat)
    requires IsDate(from) && IsDate(to) && DayOf(from) <= DayOf(to)
    requires YearOf(DayOf(from) - k * Length(DayOf(from), DayOf(to))) >= 0
    ensures var r := Back(from, to, k);
            IsDate(r.from) && IsDate(r.to) &&
            DayOf(r.from) == DayOf(from) - k * Length(DayOf(from), DayOf(to)) &&
            DayOf(r.to) == DayOf(to) - k * Length(DayOf(from), DayOf(to))
  {
    hide ParseDate, IsoDate, YearOf, CalcPriorPeriod;
    var a, b := DayOf(from), DayOf(to);
    var n := Length(a, b);
    if k > 0 {
      assert k * n == (k - 1) * n + n;
      YearOfMonotone(a - k * n, a - (k - 1) * n);
      BackDays(from, to, k - 1);
      var q := Back(from, to, k - 1);
      PriorPeriodFits(q.from, q.to);
    }
  }

  ghost predicate InRange(day: int, r: DateRange) {
    IsDate(r.from) && IsDate(r.to) && DayOf(r.from) <= day <= DayOf(r.to)
  }

  lemma TileAt(from: string, to: string, day: int, depth: nat, j: nat)
    requires IsDate(from) && IsDate(to) && DayOf(from) <= DayOf(to)
    requires YearOf(DayOf(from) - depth * Length(DayOf(from), DayOf(to))) >= 0
    requires day <= DayOf(to) && j <= depth
    ensures InRange(day, Back(from, to, j)) <==> j == (DayOf(to) - day) / Length(DayOf(from), DayOf(to))
  {
    hide ParseDate, YearOf, Back;
    var a, b := DayOf(from), DayOf(to);
    var n := Length(a, b);
    TileYear(a, n, j, depth);
    BackDays(from, to, j);
    TileUnique(b - day, n, j);
    assert (j + 1) * n == j * n + n;
  }

  /** Stepping back tiles the past: a day up to `to` lies in exactly one of the periods. */
  lemma PriorPeriodsTile(from: string, to: string, day: int, depth: nat)
    requires IsDate(from) && IsDate(to) && DayOf(from) <= DayOf(to)
    requires YearOf(DayOf(from) - depth * Length(DayOf(from), DayOf(to))) >= 0
    requires DayOf(from) - depth * Length(DayOf(from), DayOf(to)) <= day <= DayOf(to)
    ensures exists k: nat ::
              k <= depth && InRange(day, Back(from, to, k)) &&
              forall j: nat :: j <= depth && InRange(day, Back(from, to, j)) ==> j == k
  {
    hide ParseDate, YearOf, Back, InRange;
    TileIndex(DayOf(from), DayOf(to), day, depth);
    var k: nat := (DayOf(to) - day) / Length(DayOf(from), DayOf(to));
    forall j: nat | j <= depth ensures InRange(day, Back(from, to, j)) <==> j == k {
      TileAt(from, to, day, depth, j);
    }
    assert k <= depth && InRange(day, Back(from, to, k));
  }

  /** The same, stepping back with computePriorPeriod. */
  function ComputeBack(from: string, to: string, k: nat): DateRange
    requires IsDate(from) && IsDate(to)
  {
    if k == 0 then DateRange(from, to) else
    var r := ComputeBack(from, to, k - 1);
    if IsDate(r.from) && IsDate(r.to) then ComputePriorPeriod(r.from, r.to) else r
  }

  lemma {:induction false} ComputeBackIsBack(from: string, to: string, k: nat)
    requires IsDate(from) && IsDate(to) && DayOf(from) <= DayOf(to)
    requires YearOf(DayOf(from) - k * Length(DayOf(from), DayOf(to))) >= 100
    ensures ComputeBack(from, to, k) == Back(from, to, k)
  {
    hide ParseDate, YearOf, ComputePriorPeriod, CalcPriorPeriod;
    if k > 0 {
      var a, n := DayOf(from), Length(DayOf(from), DayOf(to));
      assert k * n == (k - 1) * n + n;
      YearOfMonotone(a - k * n, a - (k - 1) * n);
      ComputeBackIsBack(from, to, k - 1);
      BackDays(from, to, k - 1);
      var r := Back(from, to, k - 1);
      PriorPeriodsAgree(r.from, r.to);
    }
  }

  /** While every step stays in the year 100 or later, computePriorPeriod tiles the past in the same way. */
  lemma ComputePriorPeriodsTile(from: string, to: string, day: int, depth: nat)
    requires IsDate(from) && IsDate(to) && DayOf(from) <= DayOf(to)
    requires YearOf(DayOf(from) - depth * Length(DayOf(from), DayOf(to))) >= 100
    requires DayOf(from) - depth * Length(DayOf(from), DayOf(to)) <= day <= DayOf(to)
    ensures exists k: nat ::
              k <= depth && InRange(day, ComputeBack(from, to, k)) &&
              forall j: nat :: j <= depth && InRange(day, ComputeBack(from, to, j)) ==> j == k
  {
    hide ParseDate, YearOf, Back, ComputeBack, InRange;
    TileIndex(DayOf(from), DayOf(to), day, depth);
    var k: nat := (DayOf(to) - day) / Length(DayOf(from), DayOf(to));
    forall j: nat | j <= depth ensures InRange(day, ComputeBack(from, to, j)) <==> j == k {
      EarlierStepAgrees(from, to, j, depth);
      TileAt(from, to, day, depth, j);
    }
    assert k <= depth && InRange(day, ComputeBack(from, to, k));
  }

  lemma EarlierStepAgrees(from: string, to: string, j: nat, depth: nat)
    requires IsDate(from) && IsDate(to) && DayOf(from) <= DayOf(to) && j <= depth
    requires YearOf(DayOf(from) - depth * Length(DayOf(from), DayOf(to))) >= 100
    ensures ComputeBack(from, to, j) == Back(from, to, j)
  {
    hide ParseDate, YearOf, Back, ComputeBack;
    var a, n := DayOf(from), Length(DayOf(from), DayOf(to));
    TimesOrder(j, depth, n);
    YearOfMonotone(a - depth * n, a - j * n);
    ComputeBackIsBack(from, to, j);
  }

  lemma TileIndex(a: int, b: int, day: int, depth: nat)
    requires a <= b && a - depth * Length(a, b) <= day <= b
    ensures 0 <= (b - day) / Length(a, b) <= depth
  {
    var n := Length(a, b);
    var k := (b - day) / n;
    Quotient(b - day, n);
    assert (depth + 1) * n == depth * n + n;
    if k > depth { TimesOrder(depth + 1, k, n); }
    if k < 0 { TimesOrder(k, -1, n); }
  }

  lemma TileYear(a: int, n: int, j: nat, depth: nat)
    requires n > 0 && j <= depth && YearOf(a - depth * n) >= 0
    ensures YearOf(a - j * n) >= 0
  {
    hide YearOf;
    TimesOrder(j, depth, n);
    YearOfMonotone(a - depth * n, a - j * n);
  }

  lemma TileUnique(back: int, n: int, j: int)
    requires n > 0 && back >= 0
    ensures j * n <= back < (j + 1) * n <==> j == back / n
  {
    Quotient(back, n);
    UniqueMultiple(back, n, j, back / n, back % n);
  }

  lemma Quotient(a: int, n: int)
    requires n > 0
    ensures a == a / n * n + a % n && 0 <= a % n < n
  {
  }

  lemma UniqueMultiple(back: int, n: int, j: int, k: int, r: int)
    requires n > 0 && back == k * n + r && 0 <= r < n
    ensures j * n <= back < (j + 1) * n <==> j == k
  {
    assert (j + 1) * n == j * n + n && (k + 1) * n == k * n + n;
    if j < k { TimesOrder(j + 1, k, n); }
    if j > k { TimesOrder(k + 1, j, n); }
  }

  lemma TimesOrder(a: int, b: int, n: int)
    requires a <= b && n > 0
    ensures a * n <= b * n
  {
    NotNegative(b - a, n);
    assert (b - a) * n == b * n - a * n;
  }

  lemma NotNegative(a: int, n: int)
    requires a >= 0 && n > 0
    ensures a * n >= 0
  {
  }
}
