/** What an upsert stores for one input row, and which statements PostgreSQL refuses. */
module StoredRows {
  import opened Options
  import opened Calendar
  import opened Metrics

  predicate Blank(s: string) { forall i :: 0 <= i < |s| ==> IsSpace(s[i]) }

  /** r is s without the blanks around it. */
  ghost predicate IsTrim(r: string, s: string) {
    (r != "" ==> !IsSpace(r[0]) && !IsSpace(r[|r| - 1]))
    && exists i, j :: 0 <= i <= j <= |s| && r == s[i..j] && Blank(s[..i]) && Blank(s[j..])
  }

  lemma {:induction false} StartTrimmed(s: string) returns (i: nat)
    ensures i <= |s| && TrimStart(s) == s[i..] && Blank(s[..i])
    ensures TrimStart(s) != "" ==> !IsSpace(TrimStart(s)[0])
  {
    i := 0;
    if s != "" && IsSpace(s[0]) {
      var k := StartTrimmed(s[1..]);
      i := k + 1;
      assert s[..i] == [s[0]] + s[1..][..k] && s[i..] == s[1..][k..];
    }
  }

  lemma {:induction false} EndTrimmed(s: string) returns (j: nat)
    ensures j <= |s| && TrimEnd(s) == s[..j] && Blank(s[j..])
    ensures TrimEnd(s) != "" ==> !IsSpace(TrimEnd(s)[|TrimEnd(s)| - 1])
  {
    j := |s|;
    if s != "" && IsSpace(s[|s| - 1]) {
      var k := EndTrimmed(s[..|s| - 1]);
      j := k;
      assert s[j..] == s[..|s| - 1][k..] + [s[|s| - 1]] && s[..j] == s[..|s| - 1][..k];
    }
  }

  lemma Trimmed(s: string)
    ensures IsTrim(TrimEnd(TrimStart(s)), s)
    ensures TrimEnd(TrimStart(s)) == "" <==> Blank(s)
  {
    hide TrimStart, TrimEnd, IsSpace, Blank, IsTrim;
    var i := StartTrimmed(s);
    var t := TrimStart(s);
    var j := EndTrimmed(t);
    Slices(s, i, j);
    TrimParts(s, i, i + j);
    if j > 0 { assert t[0] == t[..j][0]; }
  }

  lemma Slices(s: string, i: nat, j: nat)
    requires i + j <= |s|
    ensures s[i..][..j] == s[i..i + j] && s[i..][j..] == s[i + j..]
  {
  }

  /** Blanks up to i and from k on, and none at either end in between. */
  lemma TrimParts(s: string, i: nat, k: nat)
    requires i <= k <= |s| && Blank(s[..i]) && Blank(s[k..])
    requires k > i ==> !IsSpace(s[i..k][0]) && !IsSpace(s[i..k][k - i - 1])
    ensures IsTrim(s[i..k], s) && (s[i..k] == "" <==> Blank(s))
  {
    hide IsSpace;
    if k == i {
      BlankParts(s, i);
    } else {
      assert s[i..k][0] == s[i];
    }
  }

  lemma BlankParts(s: string, i: nat)
    requires i <= |s| && Blank(s[..i]) && Blank(s[i..])
    ensures Blank(s)
  {
    hide IsSpace;
    forall k | 0 <= k < |s| ensures IsSpace(s[k]) {
      if k < i { assert s[k] == s[..i][k]; } else { assert s[k] == s[i..][k - i]; }
    }
  }

  /** A dimension is stored without the blanks around it, and as null when there is nothing else. */
  ghost predicate StoredAs(stored: Option<string>, given: Option<string>) {
    match stored
    case None => given.None? || Blank(given.value)
    case Some(s) => given.Some? && !Blank(given.value) && IsTrim(s, given.value)
  }

  lemma DimensionStored(given: Option<string>)
    ensures StoredAs(Dimension(given), given)
  {
    hide TrimStart, TrimEnd, IsTrim, Blank;
    if given.Some? { Trimmed(given.value); }
  }

  /** The first ten characters of a date with or without a time of day. */
  function DatePart(recordedAt: string): string { if |recordedAt| > 10 then recordedAt[..10] else recordedAt }

  /** The row stored for x: the converted metric and value, the day, each dimension under its own name. */
  ghost predicate IsRowFor(r: Row, norm: Normalizer, x: RowInput) {
    r.metric == norm.convert(x.metricKey, x.value).0 && r.value == norm.convert(x.metricKey, x.value).1
    && IsDate(DatePart(x.recordedAt)) && r.day == DayOf(DatePart(x.recordedAt))
    && StoredAs(r.dimKey, x.dimensionKey) && StoredAs(r.dimVal, x.dimensionVal)
  }

  /** The columns of the insert, in its order, hold this row of this scope. */
  predicate HoldsRow(ps: seq<SqlParam>, scope: Scope, r: Row) {
    |ps| == 8 && ps[0] == SqlText(scope.tenant) && ps[1] == SqlText(scope.campaign) && ps[2] == SqlText(scope.platform)
    && ps[3] == SqlText(r.metric) && ps[4].SqlText? && IsDate(ps[4].text) && DayOf(ps[4].text) == r.day
    && ps[5] == SqlNumber(r.value)
    && ps[6] == (if r.dimKey.Some? then SqlText(r.dimKey.value) else SqlNull)
    && ps[7] == (if r.dimVal.Some? then SqlText(r.dimVal.value) else SqlNull)
  }

  /** A row is stored exactly for a date PostgreSQL has and columns that take it; it is the row the parameters hold. */
  lemma RowMeaning(scope: Scope, norm: Normalizer, x: RowInput)
    ensures RowOf(norm, x).Some? <==> IsSqlDate(DatePart(x.recordedAt)) && norm.accepts(x)
    ensures RowOf(norm, x).Some? ==>
              IsRowFor(RowOf(norm, x).value, norm, x) && HoldsRow(ParamsOf(scope, norm, x), scope, RowOf(norm, x).value)
  {
    hide ParseDate, YearOf, Dimension, StoredAs;
    DimensionStored(x.dimensionKey);
    DimensionStored(x.dimensionVal);
  }

  /** One statement is accepted exactly when every row can be stored, none is negative, and no two share a key. */
  lemma AcceptedExactly(norm: Normalizer, xs: seq<RowInput>)
    ensures Fits(norm, xs) <==>
            (forall i :: 0 <= i < |xs| ==> RowOf(norm, xs[i]).Some? && RowOf(norm, xs[i]).value.value >= 0.0) &&
            (forall i, j :: 0 <= i < j < |xs| && RowOf(norm, xs[i]).Some? && RowOf(norm, xs[j]).Some? ==>
               KeyOf(RowOf(norm, xs[i]).value) != KeyOf(RowOf(norm, xs[j]).value))
  {
    hide RowOf, RowsOf, KeyOf;
    if forall i :: 0 <= i < |xs| ==> RowOf(norm, xs[i]).Some? { RowsOfLength(norm, xs); }
  }

  /** Two inputs hit the same stored row exactly when what is stored for them differs at most in the value. */
  lemma SameKeyExactly(norm: Normalizer, x: RowInput, y: RowInput)
    requires RowOf(norm, x).Some? && RowOf(norm, y).Some?
    ensures var a, b := RowOf(norm, x).value, RowOf(norm, y).value;
            KeyOf(a) == KeyOf(b) <==> a.(value := b.value) == b
  {
    hide ParseDate, YearOf, Dimension;
    NeverEmpty(x.dimensionKey);
    NeverEmpty(x.dimensionVal);
    NeverEmpty(y.dimensionKey);
    NeverEmpty(y.dimensionVal);
  }

  lemma NeverEmpty(given: Option<string>)
    ensures Dimension(given) != Some("")
  {
  }
}
