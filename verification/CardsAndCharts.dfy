/** The figures of cards and charts, counted row by row over the stored table. */
module CardsAndCharts {
  import opened Calendar
  import opened Periods
  import opened Metrics

  /** The rows of metric k from one day to another. */
  predicate Counts(r: Row, from: int, to: int, k: string) { r.metric == k && from <= r.day <= to }

  function SumIn(t: Table, from: int, to: int, k: string): real {
    if t == [] then 0.0 else (if Counts(t[0], from, to, k) then t[0].value else 0.0) + SumIn(t[1..], from, to, k)
  }

  function CountIn(t: Table, from: int, to: int, k: string): nat {
    if t == [] then 0 else (if Counts(t[0], from, to, k) then 1 else 0) + CountIn(t[1..], from, to, k)
  }

  predicate Asked(f: Filter, k: string) { f.keys == [] || k in f.keys }

  /** The newest of the rows without dimensions, among those of metric k in the range. */
  ghost predicate IsNewest(x: Row, t: Table, from: int, to: int, k: string) {
    Plain(x, t, from, to, k) && forall y :: Plain(y, t, from, to, k) ==> y.day <= x.day
  }

  predicate Plain(x: Row, t: Table, from: int, to: int, k: string) {
    x in t && Counts(x, from, to, k) && x.dimKey.None? && x.dimVal.None?
  }

  // ---------- the card ----------

  lemma {:induction false} ValuesCounted(t: Table, f: Filter, k: string)
    requires Asked(f, k)
    ensures |Values(t, f, k)| == CountIn(t, f.from, f.to, k) && Total(Values(t, f, k)) == SumIn(t, f.from, f.to, k)
  {
    if t != [] {
      ValuesCounted(t[1..], f, k);
      ValuesTotalStep(t, f, k);
    }
  }

  lemma {:induction false} LatestIsNewest(t: Table, f: Filter, k: string)
    requires Asked(f, k)
    ensures Latest(t, f, k).Some? ==> IsNewest(Latest(t, f, k).value, t, f.from, f.to, k)
    ensures Latest(t, f, k).None? ==> forall y :: !Plain(y, t, f.from, f.to, k)
  {
    if t != [] {
      LatestIsNewest(t[1..], f, k);
      assert t == [t[0]] + t[1..];
      forall y ensures Plain(y, t, f.from, f.to, k) <==>
                       Plain(y, t[1..], f.from, f.to, k) || (y == t[0] && Plain(t[0], t, f.from, f.to, k))
      {
      }
    }
  }

  lemma {:induction false} CountedRow(t: Table, from: int, to: int, k: string)
    ensures CountIn(t, from, to, k) > 0 <==> exists x :: x in t && Counts(x, from, to, k)
  {
    if t != [] {
      CountedRow(t[1..], from, to, k);
      assert t == [t[0]] + t[1..];
    }
  }

  /** What the card holds under a metric, and for which metrics it holds anything. */
  ghost predicate IsCard(card: map<string, real>, t: Table, f: Filter, agg: Aggregate) {
    forall k ::
      (k in card <==> Asked(f, k) && if agg == LAST then exists x :: Plain(x, t, f.from, f.to, k)
                                     else CountIn(t, f.from, f.to, k) > 0)
      && (k in card ==> IsFigure(card[k], t, f.from, f.to, k, agg))
  }

  /** SUM and AVG are over all rows counted; LAST is the value of the newest row without dimensions. */
  ghost predicate IsFigure(v: real, t: Table, from: int, to: int, k: string, agg: Aggregate) {
    match agg
    case SUM => v == SumIn(t, from, to, k)
    case AVG => v * CountIn(t, from, to, k) as real == SumIn(t, from, to, k)
    case LAST => exists x :: IsNewest(x, t, from, to, k) && v == x.value
  }

  lemma CardMeaning(t: Table, f: Filter, agg: Aggregate)
    ensures IsCard(QuerySummary(t, f, agg), t, f, agg)
  {
    hide Values, Latest, SumIn, CountIn, Present, IsNewest, Plain, IsFigure, Total;
    var card := QuerySummary(t, f, agg);
    forall k
      ensures k in card <==> Asked(f, k) && if agg == LAST then exists x :: Plain(x, t, f.from, f.to, k)
                                            else CountIn(t, f.from, f.to, k) > 0
      ensures k in card ==> IsFigure(card[k], t, f.from, f.to, k, agg)
    {
      PresentHasValues(t, f, k);
      if Asked(f, k) {
        if agg == LAST { LastEntry(t, f, k); } else { TotalEntry(t, f, agg, k); }
      } else {
        NotAsked(t, f, k);
      }
    }
  }

  lemma NotAsked(t: Table, f: Filter, k: string)
    requires !Asked(f, k)
    ensures k !in Present(t, f)
  {
  }

  lemma LastEntry(t: Table, f: Filter, k: string)
    requires Asked(f, k)
    ensures var card := QuerySummary(t, f, LAST);
            (k in card <==> exists x :: Plain(x, t, f.from, f.to, k)) && (k in card ==> IsFigure(card[k], t, f.from, f.to, k, LAST))
  {
    hide Latest;
    LatestIsNewest(t, f, k);
    if Latest(t, f, k).Some? {
      var x := Latest(t, f, k).value;
      assert Plain(x, t, f.from, f.to, k) && Matches(x, f);
      assert k in Present(t, f);
    }
  }

  lemma TotalEntry(t: Table, f: Filter, agg: Aggregate, k: string)
    requires Asked(f, k) && agg != LAST
    ensures var card := QuerySummary(t, f, agg);
            (k in card <==> CountIn(t, f.from, f.to, k) > 0) && (k in card ==> IsFigure(card[k], t, f.from, f.to, k, agg))
  {
    hide Values, SumIn, CountIn, Total, Present;
    PresentHasValues(t, f, k);
    ValuesCounted(t, f, k);
    if k in Present(t, f) && agg == AVG { DivideBack(Total(Values(t, f, k)), |Values(t, f, k)| as real); }
  }

  lemma DivideBack(a: real, d: real)
    requires d != 0.0
    ensures a / d * d == a
  {
  }

  // ---------- the chart ----------

  /** The days of the range that a label stands for: from it up to the day before the next label. */
  function FirstOf(p: int, f: Filter): int { if p < f.from then f.from else p }

  function LastOf(p: int, f: Filter, g: Granularity): int { if Next(p, g) <= f.to then Next(p, g) - 1 else f.to }

  lemma LabelSpan(p: int, day: int, f: Filter, g: Granularity)
    requires Aligned(p, g)
    ensures f.from <= day <= f.to && Trunc(day, g) == p <==> FirstOf(p, f) <= day <= LastOf(p, f, g)
  {
    hide Trunc, Next;
    NextAligned(p, g);
    TruncBelow(day, g);
    if p <= day { TruncMonotone(p, day, g); }
    if Next(p, g) <= day { TruncMonotone(Next(p, g), day, g); }
  }

  lemma {:induction false} GroupCounted(t: Table, f: Filter, g: Granularity, k: string, p: int)
    requires Asked(f, k) && Aligned(p, g)
    ensures |GroupValues(t, f, g, k, p)| == CountIn(t, FirstOf(p, f), LastOf(p, f, g), k)
    ensures Total(GroupValues(t, f, g, k, p)) == SumIn(t, FirstOf(p, f), LastOf(p, f, g), k)
  {
    hide Trunc, FirstOf, LastOf, Aligned;
    if t != [] {
      GroupCounted(t[1..], f, g, k, p);
      GroupTotalStep(t, f, g, k, p);
      LabelSpan(p, t[0].day, f, g);
    }
  }

  /** One point of a chart: the asked and the present metrics, each the figure of the label's days, 0 if none. */
  ghost predicate IsPoint(row: PeriodRow, p: int, t: Table, f: Filter, g: Granularity, agg: Aggregate) {
    row.period == IsoDate(p)
    && forall k ::
         (k in row.metrics <==> k in f.keys || (f.keys == [] && CountIn(t, f.from, f.to, k) > 0))
         && (k in row.metrics ==> IsPointValue(row.metrics[k], t, FirstOf(p, f), LastOf(p, f, g), k, agg))
  }

  /** LAST has no meaning within a period; charts add up then. */
  ghost predicate IsPointValue(v: real, t: Table, from: int, to: int, k: string, agg: Aggregate) {
    if CountIn(t, from, to, k) == 0 then v == 0.0
    else IsFigure(v, t, from, to, k, if agg == AVG then AVG else SUM)
  }

  lemma PointMeaning(t: Table, f: Filter, g: Granularity, agg: Aggregate, p: int)
    requires Aligned(p, g)
    ensures IsPoint(ChartRow(t, f, g, agg, p), p, t, f, g, agg)
  {
    hide SumIn, CountIn, GroupValues, Aligned, FirstOf, LastOf, Present, IsoDate, IsPointValue;
    var row := ChartRow(t, f, g, agg, p);
    forall k
      ensures k in row.metrics <==> k in f.keys || (f.keys == [] && CountIn(t, f.from, f.to, k) > 0)
      ensures k in row.metrics ==> IsPointValue(row.metrics[k], t, FirstOf(p, f), LastOf(p, f, g), k, agg)
    {
      ShownKeys(t, f, k);
      if Asked(f, k) { PointValue(t, f, g, agg, k, p); }
    }
  }

  lemma ShownKeys(t: Table, f: Filter, k: string)
    ensures k in AllKeys(t, f) <==> k in f.keys || (f.keys == [] && CountIn(t, f.from, f.to, k) > 0)
    ensures k in AllKeys(t, f) ==> Asked(f, k)
  {
    hide CountIn;
    CountedRow(t, f.from, f.to, k);
    if x :| x in t && Counts(x, f.from, f.to, k) {
      if f.keys == [] { assert Matches(x, f) && k in Present(t, f); }
    }
  }

  lemma PointValue(t: Table, f: Filter, g: Granularity, agg: Aggregate, k: string, p: int)
    requires Asked(f, k) && Aligned(p, g)
    ensures IsPointValue(GroupValue(t, f, g, agg, k, p), t, FirstOf(p, f), LastOf(p, f, g), k, agg)
  {
    hide SumIn, CountIn, GroupValues, Aligned, FirstOf, LastOf, Total;
    GroupCounted(t, f, g, k, p);
    var vs := GroupValues(t, f, g, k, p);
    if vs != [] && agg == AVG { DivideBack(Total(vs), |vs| as real); }
  }

  /** Every label of a chart shows the figures of its own days. */
  lemma ChartMeaning(t: Table, f: Filter, g: Granularity, agg: Aggregate)
    ensures var days := LabelDays(f.from, f.to, g); var chart := Chart(t, f, g, agg);
            |chart| == |days| && forall i :: 0 <= i < |days| ==> IsPoint(chart[i], days[i], t, f, g, agg)
  {
    hide IsPoint, ChartRow, PeriodDays, StartDay, Trunc;
    var days := LabelDays(f.from, f.to, g);
    StartDayTruncates(f.from, g);
    PeriodDaysExact(StartDay(f.from, g), f.to, g);
    forall i | 0 <= i < |days| ensures IsPoint(ChartRow(t, f, g, agg, days[i]), days[i], t, f, g, agg) {
      assert days[i] in days;
      PointMeaning(t, f, g, agg, days[i]);
    }
  }
}
