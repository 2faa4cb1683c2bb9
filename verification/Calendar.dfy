/**
 UTC day numbers and proleptic Gregorian dates, as section 21.4.1 of ECMA-262 defines them, and the
 YYYY-MM-DD strings the services exchange. A day number counts days since 1970-01-01.
 */
module Calendar {
  import opened Options
  import opened Text

  const MS_PER_DAY := 86_400_000

  lemma WholeDay(d: int)
    ensures d * MS_PER_DAY / MS_PER_DAY == d
  {
  }

  // ---------- years ----------

  predicate IsLeap(y: int) { y % 4 == 0 && (y % 100 != 0 || y % 400 == 0) }

  function DaysInYear(y: int): int { if IsLeap(y) then 366 else 365 }

  /** The first day of year y, counted year by year from 1970. */
  function DayFromYear(y: int): int
    decreases if y < 1970 then 1970 - y else y - 1970
  {
    if y == 1970 then 0
    else if y > 1970 then DayFromYear(y - 1) + DaysInYear(y - 1)
    else DayFromYear(y + 1) - DaysInYear(y)
  }

  lemma YearStep(y: int)
    ensures DayFromYear(y + 1) == DayFromYear(y) + DaysInYear(y)
  {
  }

  /** The closed form ECMA-262 gives for it; `/` rounds down because the divisors are positive. */
  function EcmaDayFromYear(y: int): int {
    365 * (y - 1970) + (y - 1969) / 4 - (y - 1901) / 100 + (y - 1601) / 400
  }

  lemma FourthYear(y: int)
    ensures (y - 1968) / 4 == (y - 1969) / 4 + if y % 4 == 0 then 1 else 0
  {
  }

  lemma HundredthYear(y: int)
    ensures (y - 1900) / 100 == (y - 1901) / 100 + if y % 100 == 0 then 1 else 0
  {
  }

  lemma CenturiesAreFourths(y: int)
    ensures y % 100 == 0 ==> y % 4 == 0
    ensures y % 400 == 0 ==> y % 100 == 0
  {
    if y % 100 == 0 { MultipleOfFour(y, 25 * (y / 100)); }
    if y % 400 == 0 { MultipleOfHundred(y, 4 * (y / 400)); }
  }

  lemma MultipleOfFour(y: int, q: int)
    requires y == 4 * q
    ensures y % 4 == 0
  {
  }

  lemma MultipleOfHundred(y: int, q: int)
    requires y == 100 * q
    ensures y % 100 == 0
  {
  }

  lemma FourHundredthYear(y: int)
    ensures (y - 1600) / 400 == (y - 1601) / 400 + if y % 400 == 0 then 1 else 0
  {
  }

  lemma EcmaTerms(y: int)
    ensures EcmaDayFromYear(y + 1) == 365 * (y - 1970) + 365 + (y - 1968) / 4 - (y - 1900) / 100 + (y - 1600) / 400
  {
    assert y + 1 - 1969 == y - 1968 && y + 1 - 1901 == y - 1900 && y + 1 - 1601 == y - 1600;
  }

  lemma EcmaYearStep(y: int)
    ensures EcmaDayFromYear(y + 1) == EcmaDayFromYear(y) + DaysInYear(y)
  {
    EcmaTerms(y);
    FourthYear(y);
    HundredthYear(y);
    FourHundredthYear(y);
    CenturiesAreFourths(y);
  }

  lemma {:induction false} DayFromYearClosedForm(y: int)
    ensures DayFromYear(y) == EcmaDayFromYear(y)
    decreases if y < 1970 then 1970 - y else y - 1970
  {
    if y > 1970 {
      DayFromYearClosedForm(y - 1);
      EcmaYearStep(y - 1);
    } else if y < 1970 {
      DayFromYearClosedForm(y + 1);
      EcmaYearStep(y);
    }
  }

  lemma {:induction false} YearOrder(y: int, z: int)
    requires y < z
    ensures DayFromYear(y) + 365 * (z - y) <= DayFromYear(z)
    decreases z - y
  {
    YearStep(z - 1);
    if y < z - 1 { YearOrder(y, z - 1); }
  }

  /** The year holding day d, searched from year y. */
  function YearFrom(d: int, y: int): (r: int)
    ensures DayFromYear(r) <= d < DayFromYear(r + 1)
    decreases if d < DayFromYear(y) then DayFromYear(y) - d
              else if d >= DayFromYear(y + 1) then d - DayFromYear(y + 1) + 1 else 0
  {
    YearStep(y - 1);
    YearStep(y);
    YearStep(y + 1);
    if d < DayFromYear(y) then YearFrom(d, y - 1)
    else if d >= DayFromYear(y + 1) then YearFrom(d, y + 1)
    else y
  }

  function YearOf(d: int): (y: int)
    ensures DayFromYear(y) <= d < DayFromYear(y + 1)
  {
    YearFrom(d, 1970)
  }

  lemma YearOfUnique(d: int, y: int)
    requires DayFromYear(y) <= d < DayFromYear(y + 1)
    ensures YearOf(d) == y
  {
    var z := YearOf(d);
    if z < y {
      if z + 1 < y { YearOrder(z + 1, y); }
      assert false;
    }
    if y < z {
      if y + 1 < z { YearOrder(y + 1, z); }
      assert false;
    }
  }

  // ---------- months and days ----------

  /** Days of year y before its month m; month 13 is the end of the year. */
  function DaysBefore(m: int, y: int): int
    requires 1 <= m <= 13
  {
    var l := if IsLeap(y) then 1 else 0;
    if m == 1 then 0 else if m == 2 then 31 else if m == 3 then 59 + l
    else if m == 4 then 90 + l else if m == 5 then 120 + l else if m == 6 then 151 + l
    else if m == 7 then 181 + l else if m == 8 then 212 + l else if m == 9 then 243 + l
    else if m == 10 then 273 + l else if m == 11 then 304 + l else if m == 12 then 334 + l
    else 365 + l
  }

  datatype Civil = Civil(year: int, month: int, day: int)

  predicate ValidCivil(c: Civil) {
    1 <= c.month <= 12 && 1 <= c.day <= DaysBefore(c.month + 1, c.year) - DaysBefore(c.month, c.year)
  }

  function DayNumber(c: Civil): int
    requires 1 <= c.month <= 12
  {
    DayFromYear(c.year) + DaysBefore(c.month, c.year) + c.day - 1
  }

  function MonthOf(d: int): (m: int)
    ensures 1 <= m <= 12
    ensures var k := d - DayFromYear(YearOf(d)); DaysBefore(m, YearOf(d)) <= k < DaysBefore(m + 1, YearOf(d))
  {
    var y := YearOf(d);
    YearStep(y);
    var k := d - DayFromYear(y);
    if k < DaysBefore(2, y) then 1 else if k < DaysBefore(3, y) then 2
    else if k < DaysBefore(4, y) then 3 else if k < DaysBefore(5, y) then 4
    else if k < DaysBefore(6, y) then 5 else if k < DaysBefore(7, y) then 6
    else if k < DaysBefore(8, y) then 7 else if k < DaysBefore(9, y) then 8
    else if k < DaysBefore(10, y) then 9 else if k < DaysBefore(11, y) then 10
    else if k < DaysBefore(12, y) then 11 else 12
  }

  function DateOf(d: int): int {
    d - DayFromYear(YearOf(d)) - DaysBefore(MonthOf(d), YearOf(d)) + 1
  }

  function CivilOf(d: int): Civil { Civil(YearOf(d), MonthOf(d), DateOf(d)) }

  lemma CivilRoundTrip(d: int)
    ensures ValidCivil(CivilOf(d)) && DayNumber(CivilOf(d)) == d
  {
  }

  lemma DayNumberRoundTrip(c: Civil)
    requires ValidCivil(c)
    ensures CivilOf(DayNumber(c)) == c
  {
    var d := DayNumber(c);
    YearStep(c.year);
    assert 0 <= DaysBefore(c.month, c.year) && DaysBefore(c.month + 1, c.year) <= DaysInYear(c.year);
    YearOfUnique(d, c.year);
    assert MonthOf(d) == c.month;
  }

  // ---------- the Date constructors and setters of ECMA-262 ----------

  /** MakeDay: the month is counted from 0 and, like the date, may overflow its range. */
  function MakeDay(year: int, month0: int, date: int): int {
    var y := year + month0 / 12;
    DayFromYear(y) + DaysBefore(month0 % 12 + 1, y) + date - 1
  }

  /** Date.UTC: a year between 0 and 99 means 1900 to 1999. */
  function DateUtc(year: int, month0: int, date: int): int {
    MakeDay(if 0 <= year <= 99 then 1900 + year else year, month0, date)
  }

  function SetUtcDate(d: int, date: int): int { MakeDay(YearOf(d), MonthOf(d) - 1, date) }

  function SetUtcMonth(d: int, month0: int): int { MakeDay(YearOf(d), month0, DateOf(d)) }

  /** getUTCDay: 0 is Sunday. */
  function WeekDay(d: int): int { (d + 4) % 7 }

  lemma SetUtcDateShifts(d: int, k: int)
    ensures SetUtcDate(d, DateOf(d) + k) == d + k
  {
    assert (MonthOf(d) - 1) / 12 == 0 && (MonthOf(d) - 1) % 12 + 1 == MonthOf(d);
  }

  /** Months counted through the years; FirstOfMonth is strictly increasing in it. */
  function MonthIndex(d: int): int { YearOf(d) * 12 + MonthOf(d) - 1 }

  function FirstOfMonth(k: int): int { MonthDay(k / 12, k % 12 + 1) }

  function MonthDay(y: int, m: int): int
    requires 1 <= m <= 13
  {
    DayFromYear(y) + DaysBefore(m, y)
  }

  lemma FirstOfMonthIsMakeDay(year: int, month0: int)
    ensures MakeDay(year, month0, 1) == FirstOfMonth(12 * year + month0)
  {
    var k := 12 * year + month0;
    assert k / 12 == year + month0 / 12 && k % 12 == month0 % 12;
  }

  /** Month 13 of a year is month 1 of the next. */
  lemma MonthDayWrap(y: int)
    ensures MonthDay(y, 13) == MonthDay(y + 1, 1)
  {
    YearStep(y);
  }

  lemma MonthDaySteps(y: int, m: int)
    requires 1 <= m <= 12
    ensures MonthDay(y, m) + 28 <= MonthDay(y, m + 1) <= MonthDay(y, m) + 31
  {
  }

  lemma FirstOfMonthStep(k: int)
    ensures FirstOfMonth(k + 1) == MonthDay(k / 12, k % 12 + 2)
    ensures FirstOfMonth(k) + 28 <= FirstOfMonth(k + 1) <= FirstOfMonth(k) + 31
  {
    var y, m := k / 12, k % 12 + 1;
    MonthDaySteps(y, m);
    if m == 12 {
      MonthDayWrap(y);
      assert (k + 1) / 12 == y + 1 && (k + 1) % 12 == 0;
    } else {
      assert (k + 1) / 12 == y && (k + 1) % 12 == m;
    }
  }

  lemma {:induction false} FirstOfMonthOrder(j: int, k: int)
    requires j < k
    ensures FirstOfMonth(j) < FirstOfMonth(k)
    decreases k - j
  {
    FirstOfMonthStep(k - 1);
    if j < k - 1 { FirstOfMonthOrder(j, k - 1); }
  }

  lemma MonthBounds(d: int)
    ensures FirstOfMonth(MonthIndex(d)) <= d < FirstOfMonth(MonthIndex(d) + 1)
  {
    var k := MonthIndex(d);
    FirstOfMonthStep(k);
    assert k / 12 == YearOf(d) && k % 12 + 1 == MonthOf(d);
  }

  lemma MonthIndexUnique(d: int, k: int)
    requires FirstOfMonth(k) <= d < FirstOfMonth(k + 1)
    ensures MonthIndex(d) == k
  {
    hide FirstOfMonth, MonthIndex;
    MonthBounds(d);
    var j := MonthIndex(d);
    if j < k && j + 1 < k { FirstOfMonthOrder(j + 1, k); }
    if k < j && k + 1 < j { FirstOfMonthOrder(k + 1, j); }
  }

  lemma FirstOfMonthIndex(k: int)
    ensures MonthIndex(FirstOfMonth(k)) == k
  {
    FirstOfMonthStep(k);
    MonthIndexUnique(FirstOfMonth(k), k);
  }

  lemma MonthIndexMonotone(a: int, b: int)
    requires a <= b
    ensures MonthIndex(a) <= MonthIndex(b)
  {
    MonthBounds(a);
    MonthBounds(b);
    var j, k := MonthIndex(a), MonthIndex(b);
    if k < j && k + 1 < j { FirstOfMonthOrder(k + 1, j); }
  }

  /** setUTCMonth on the first of a month moves to the first of the next. */
  lemma SetUtcMonthSteps(k: int)
    ensures SetUtcMonth(FirstOfMonth(k), MonthOf(FirstOfMonth(k))) == FirstOfMonth(k + 1)
  {
    hide FirstOfMonth, YearOf, MonthOf, DateOf, MakeDay;
    FirstOfMonthParts(k);
    FirstOfMonthIsMakeDay(k / 12, k % 12 + 1);
  }

  lemma FirstOfMonthParts(k: int)
    ensures var d := FirstOfMonth(k); YearOf(d) == k / 12 && MonthOf(d) == k % 12 + 1 && DateOf(d) == 1
  {
    hide MonthOf, YearOf, DayFromYear, DaysBefore;
    var d := FirstOfMonth(k);
    FirstOfMonthIndex(k);
    assert YearOf(d) * 12 + MonthOf(d) - 1 == k;
    assert k / 12 == YearOf(d) && k % 12 + 1 == MonthOf(d);
  }

  // ---------- date strings ----------

  /** new Date(d * MS_PER_DAY).toISOString().slice(0, 10), expanded years included. */
  function IsoDate(d: int): (s: string)
    ensures |s| == 10
  {
    var c := CivilOf(d);
    if 0 <= c.year <= 9999 then
      DateString(c)
    else
      (if c.year < 0 then "-" else "+") + Pad(if c.year < 0 then -c.year else c.year, 6) + "-" + Pad(c.month, 2)
  }

  /** The day a YYYY-MM-DD string names; None when it names none. */
  function ParseDate(s: string): Option<int> {
    if |s| == 10 && s[4] == '-' && s[7] == '-' &&
       AllDigits(s[..4]) && AllDigits(s[5..7]) && AllDigits(s[8..]) then
      var c := Civil(ParseNat(s[..4]), ParseNat(s[5..7]), ParseNat(s[8..]));
      if ValidCivil(c) then Some(DayNumber(c)) else None
    else None
  }

  predicate IsDate(s: string) { ParseDate(s).Some? }

  function DayOf(s: string): int
    requires IsDate(s)
  {
    ParseDate(s).value
  }

  /** A date string has four digits for its year. */
  lemma ParsedYear(s: string)
    requires IsDate(s)
    ensures 0 <= YearOf(DayOf(s)) <= 9999
  {
    hide YearOf, MonthOf, DateOf, ParseNat, DayNumber, ValidCivil;
    PadParse(s[..4]);
    assert Pow10(4) == 10000;
    DayNumberRoundTrip(Civil(ParseNat(s[..4]), ParseNat(s[5..7]), ParseNat(s[8..])));
  }

  /** Year, month and day stand in this order. */
  lemma DateReads(s: string)
    requires IsDate(s)
    ensures AllDigits(s[..4]) && AllDigits(s[5..7]) && AllDigits(s[8..])
    ensures YearOf(DayOf(s)) == ParseNat(s[..4]) && MonthOf(DayOf(s)) == ParseNat(s[5..7]) && DateOf(DayOf(s)) == ParseNat(s[8..])
  {
    hide YearOf, MonthOf, DateOf, ParseNat, DayNumber, ValidCivil;
    DayNumberRoundTrip(Civil(ParseNat(s[..4]), ParseNat(s[5..7]), ParseNat(s[8..])));
  }

  lemma ParseIsoDate(d: int)
    requires 0 <= YearOf(d) <= 9999
    ensures ParseDate(IsoDate(d)) == Some(d)
  {
    hide YearOf, MonthOf, DateOf, Pad, ParseNat, Pow10, DayNumber, ValidCivil, AllDigits;
    var c := CivilOf(d);
    CivilRoundTrip(d);
    ShortDay(c);
    DateParts(c);
  }

  lemma ShortDay(c: Civil)
    requires ValidCivil(c)
    ensures 1 <= c.month <= 12 && 1 <= c.day <= 31
  {
  }

  function DateString(c: Civil): string
    requires 0 <= c.year && 0 <= c.month && 0 <= c.day
  {
    Pad(c.year, 4) + "-" + Pad(c.month, 2) + "-" + Pad(c.day, 2)
  }

  lemma DateParts(c: Civil)
    requires 0 <= c.year <= 9999 && 0 <= c.month <= 99 && 0 <= c.day <= 99
    ensures var s := DateString(c);
            |s| == 10 && s[4] == '-' && s[7] == '-' && AllDigits(s[..4]) && AllDigits(s[5..7]) && AllDigits(s[8..]) &&
            Civil(ParseNat(s[..4]), ParseNat(s[5..7]), ParseNat(s[8..])) == c
  {
    hide Pad, ParseNat, AllDigits;
    var s := DateString(c);
    assert s[..4] == Pad(c.year, 4) && s[5..7] == Pad(c.month, 2) && s[8..] == Pad(c.day, 2);
    assert Pow10(2) == 100 && Pow10(4) == 10000;
    ParsePad(c.year, 4);
    ParsePad(c.month, 2);
    ParsePad(c.day, 2);
  }

  lemma IsoParseDate(s: string)
    requires IsDate(s)
    ensures IsoDate(DayOf(s)) == s
  {
    hide YearOf, MonthOf, DateOf, Pad, ParseNat, Pow10, DayNumber, ValidCivil, AllDigits;
    var c := Civil(ParseNat(s[..4]), ParseNat(s[5..7]), ParseNat(s[8..]));
    ParsedYear(s);
    DayNumberRoundTrip(c);
    PartsString(s);
  }

  lemma PartsString(s: string)
    requires |s| == 10 && s[4] == '-' && s[7] == '-' && AllDigits(s[..4]) && AllDigits(s[5..7]) && AllDigits(s[8..])
    ensures DateString(Civil(ParseNat(s[..4]), ParseNat(s[5..7]), ParseNat(s[8..]))) == s
  {
    hide Pad, ParseNat, AllDigits, Pow10;
    PadParse(s[..4]);
    PadParse(s[5..7]);
    PadParse(s[8..]);
    assert s == s[..4] + "-" + s[5..7] + "-" + s[8..];
  }

  /** A day outside the years 0 to 9999 has no YYYY-MM-DD form. */
  lemma IsoDateOutOfRange(d: int)
    requires !(0 <= YearOf(d) <= 9999)
    ensures ParseDate(IsoDate(d)) == None
  {
    var s := IsoDate(d);
    assert s[0] == '-' || s[0] == '+';
    assert s[..4][0] == s[0];
  }

  lemma YearOfMonotone(a: int, b: int)
    requires a <= b
    ensures YearOf(a) <= YearOf(b)
  {
    if YearOf(b) < YearOf(a) && YearOf(b) + 1 < YearOf(a) { YearOrder(YearOf(b) + 1, YearOf(a)); }
  }
}
