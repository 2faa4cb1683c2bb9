/** Strings as the services build them: decimal digits, joined fields, sorted keys. */
module Text {

  // ---------- decimal digits ----------

  predicate IsDigit(c: char) { '0' <= c <= '9' }

  predicate AllDigits(s: string) { forall i :: 0 <= i < |s| ==> IsDigit(s[i]) }

  function DigitChar(n: nat): (c: char)
    requires n < 10
    ensures IsDigit(c) && DigitValue(c) == n
  {
    '0' + n as char
  }

  function DigitValue(c: char): (n: nat)
    requires IsDigit(c)
    ensures n < 10
  {
    (c - '0') as nat
  }

  /** parseInt(s, 10) of a run of digits. */
  function ParseNat(s: string): nat
    requires AllDigits(s)
  {
    if s == "" then 0 else ParseNat(s[..|s| - 1]) * 10 + DigitValue(s[|s| - 1])
  }

  function Pow10(w: nat): (p: nat)
    ensures p > 0
  {
    if w == 0 then 1 else 10 * Pow10(w - 1)
  }

  /** The last w decimal digits of n, zero padded. */
  function Pad(n: nat, w: nat): (s: string)
    ensures |s| == w && AllDigits(s)
    decreases w
  {
    if w == 0 then "" else Pad(n / 10, w - 1) + [DigitChar(n % 10)]
  }

  lemma {:induction false} ParsePad(n: nat, w: nat)
    requires n < Pow10(w)
    ensures ParseNat(Pad(n, w)) == n
    decreases w
  {
    if w > 0 {
      ParsePad(n / 10, w - 1);
      assert Pad(n, w)[..w - 1] == Pad(n / 10, w - 1);
    }
  }

  lemma TenTimes(a: nat, d: nat)
    requires d < 10
    ensures (10 * a + d) / 10 == a && (10 * a + d) % 10 == d
  {
  }

  lemma PadStep(a: nat, d: nat, w: nat)
    requires d < 10
    ensures Pad(10 * a + d, w + 1) == Pad(a, w) + [DigitChar(d)]
    ensures a < Pow10(w) ==> 10 * a + d < Pow10(w + 1)
  {
    TenTimes(a, d);
  }

  lemma {:induction false} PadParse(s: string)
    requires AllDigits(s)
    ensures Pad(ParseNat(s), |s|) == s && ParseNat(s) < Pow10(|s|)
  {
    if s == "" {
      assert Pow10(0) == 1;
    } else {
      hide Pad, Pow10, ParseNat;
      var t, c := s[..|s| - 1], s[|s| - 1];
      assert s == t + [c];
      ParseAppend(t, c);
      PadParse(t);
      PadAppend(t, c, ParseNat(t));
    }
  }

  lemma ParseAppend(t: string, c: char)
    requires AllDigits(t + [c])
    ensures AllDigits(t) && IsDigit(c) && ParseNat(t + [c]) == 10 * ParseNat(t) + DigitValue(c)
  {
    var s := t + [c];
    assert s[..|s| - 1] == t && s[|t|] == c;
    forall i | 0 <= i < |t| ensures IsDigit(t[i]) { assert t[i] == s[i]; }
  }

  lemma PadAppend(t: string, c: char, n: nat)
    requires IsDigit(c) && Pad(n, |t|) == t && n < Pow10(|t|)
    ensures Pad(10 * n + DigitValue(c), |t + [c]|) == t + [c] && 10 * n + DigitValue(c) < Pow10(|t + [c]|)
  {
    hide Pad, Pow10;
    PadStep(n, DigitValue(c), |t|);
  }

  /** Number.prototype.toString for a natural number: no leading zeros. */
  function Decimal(n: nat): (s: string)
    ensures |s| > 0 && AllDigits(s)
  {
    if n < 10 then [DigitChar(n)] else Decimal(n / 10) + [DigitChar(n % 10)]
  }

  lemma {:induction false} ParseDecimal(n: nat)
    ensures ParseNat(Decimal(n)) == n
  {
    if n < 10 {
      assert Decimal(n)[..0] == "";
    } else {
      ParseDecimal(n / 10);
      assert Decimal(n)[..|Decimal(n)| - 1] == Decimal(n / 10);
    }
  }

  lemma DecimalInjective(m: nat, n: nat)
    requires Decimal(m) == Decimal(n)
    ensures m == n
  {
    ParseDecimal(m);
    ParseDecimal(n);
  }

  // ---------- joined fields ----------

  predicate Free(c: char, s: string) { c !in s }

  /** Two strings split at their first separator agree part by part. */
  lemma SplitFirst(c: char, a: string, x: string, b: string, y: string)
    requires Free(c, a) && Free(c, b)
    requires a + [c] + x == b + [c] + y
    ensures a == b && x == y
  {
    var l, r := a + [c] + x, b + [c] + y;
    assert l[|a|] == c && r[|b|] == c;
    assert |a| == |b|;
    assert a == l[..|a|] && b == r[..|b|];
    assert x == l[|a| + 1..] && y == r[|b| + 1..];
  }

  /** Array.prototype.join. */
  function Join(c: char, parts: seq<string>): string {
    if |parts| == 0 then "" else
    if |parts| == 1 then parts[0] else parts[0] + [c] + Join(c, parts[1..])
  }

  /** What splitting does with the next character, given the fields of the rest. */
  function Push(c: char, x: char, rest: seq<string>): seq<string>
    requires |rest| > 0
  {
    if x == c then [""] + rest else [[x] + rest[0]] + rest[1..]
  }

  /** String.prototype.split with a one-character separator. */
  function Split(c: char, s: string): (parts: seq<string>)
    ensures |parts| > 0
  {
    if s == "" then [""] else Push(c, s[0], Split(c, s[1..]))
  }

  lemma {:induction false} SplitField(c: char, a: string)
    requires Free(c, a)
    ensures Split(c, a) == [a]
  {
    if a != "" {
      SplitField(c, a[1..]);
      assert [a[0]] + a[1..] == a;
    }
  }

  /** A separator between two strings ends one field and begins the next, whatever the strings hold. */
  lemma {:induction false} SplitConcat(c: char, a: string, s: string)
    ensures Split(c, a + [c] + s) == Split(c, a) + Split(c, s)
  {
    var whole := a + [c] + s;
    if a == "" {
      assert whole[1..] == s;
    } else {
      hide Push;
      SplitConcat(c, a[1..], s);
      assert whole[1..] == a[1..] + [c] + s;
      PushChar(c, a[0], Split(c, a[1..]), Split(c, s));
    }
  }

  lemma PushChar(c: char, x: char, head: seq<string>, tail: seq<string>)
    requires head != []
    ensures Push(c, x, head + tail) == Push(c, x, head) + tail
  {
    assert (head + tail)[1..] == head[1..] + tail;
  }

  /** The fields of the joined list: those of its parts, in order. */
  function Pieces(c: char, parts: seq<string>): seq<string> {
    if parts == [] then [] else Split(c, parts[0]) + Pieces(c, parts[1..])
  }

  lemma {:induction false} SplitPieces(c: char, parts: seq<string>)
    requires parts != []
    ensures Split(c, Join(c, parts)) == Pieces(c, parts)
  {
    if |parts| == 1 {
      assert Pieces(c, parts[1..]) == [];
    } else {
      SplitPieces(c, parts[1..]);
      SplitConcat(c, parts[0], Join(c, parts[1..]));
    }
  }

  lemma {:induction false} PiecesOfFree(c: char, parts: seq<string>)
    requires forall p :: p in parts ==> Free(c, p)
    ensures Pieces(c, parts) == parts
  {
    if parts != [] {
      SplitField(c, parts[0]);
      PiecesOfFree(c, parts[1..]);
      assert parts == [parts[0]] + parts[1..];
    }
  }

  /** Splitting undoes joining whenever no part holds the separator. */
  lemma SplitJoin(c: char, parts: seq<string>)
    requires |parts| > 0 && forall p :: p in parts ==> Free(c, p)
    ensures Split(c, Join(c, parts)) == parts
  {
    SplitPieces(c, parts);
    PiecesOfFree(c, parts);
  }

  /** Joining undoes splitting on every string. */
  lemma {:induction false} JoinSplit(c: char, s: string)
    ensures Join(c, Split(c, s)) == s
  {
    if s != "" {
      JoinSplit(c, s[1..]);
      var rest := Split(c, s[1..]);
      if |rest| > 1 { assert Join(c, rest) == rest[0] + [c] + Join(c, rest[1..]); }
      if s[0] == c { assert Split(c, s)[1..] == rest; }
      else { assert Split(c, s)[1..] == rest[1..]; }
    }
  }

  lemma JoinInjective(c: char, a: seq<string>, b: seq<string>)
    requires |a| > 0 && |b| > 0
    requires forall p :: p in a || p in b ==> Free(c, p)
    requires Join(c, a) == Join(c, b)
    ensures a == b
  {
    SplitJoin(c, a);
    SplitJoin(c, b);
  }

  // ---------- sorting strings ----------

  /** The default order of Array.prototype.sort on strings. */
  predicate Le(a: string, b: string) {
    a == "" || (b != "" && (a[0] < b[0] || (a[0] == b[0] && Le(a[1..], b[1..]))))
  }

  lemma {:induction false} LeTotal(a: string, b: string)
    ensures Le(a, b) || Le(b, a)
  {
    if a != "" && b != "" && a[0] == b[0] { LeTotal(a[1..], b[1..]); }
  }

  lemma {:induction false} LeAntisymmetric(a: string, b: string)
    requires Le(a, b) && Le(b, a)
    ensures a == b
  {
    if a != "" && b != "" {
      LeAntisymmetric(a[1..], b[1..]);
      assert a == [a[0]] + a[1..] && b == [b[0]] + b[1..];
    }
  }

  lemma {:induction false} LeTransitive(a: string, b: string, c: string)
    requires Le(a, b) && Le(b, c)
    ensures Le(a, c)
  {
    if a != "" && a[0] == b[0] == c[0] { LeTransitive(a[1..], b[1..], c[1..]); }
  }

  lemma {:induction false} LePrefix(a: string, b: string, c: string)
    requires Le(a, b)
    ensures Le(a, b + c)
  {
    if a != "" && b != "" && a[0] == b[0] {
      LePrefix(a[1..], b[1..], c);
      assert (b + c)[1..] == b[1..] + c;
    }
  }

  predicate Sorted(s: seq<string>) { forall i, j :: 0 <= i < j < |s| ==> Le(s[i], s[j]) }

  function Insert(x: string, s: seq<string>): (r: seq<string>)
    ensures multiset(r) == multiset{x} + multiset(s)
  {
    if s == [] then [x] else
    if Le(x, s[0]) then [x] + s else
    assert s == [s[0]] + s[1..];
    [s[0]] + Insert(x, s[1..])
  }

  function Sort(s: seq<string>): (r: seq<string>)
    ensures multiset(r) == multiset(s)
  {
    if s == [] then [] else
    assert s == [s[0]] + s[1..];
    Insert(s[0], Sort(s[1..]))
  }

  lemma {:induction false} InsertSorted(x: string, s: seq<string>)
    requires Sorted(s)
    ensures Sorted(Insert(x, s))
  {
    if s != [] {
      if Le(x, s[0]) {
        forall j | 0 <= j < |s| ensures Le(x, s[j]) {
          if j > 0 { LeTransitive(x, s[0], s[j]); }
        }
      } else {
        LeTotal(x, s[0]);
        InsertSorted(x, s[1..]);
        var r := Insert(x, s[1..]);
        forall j | 0 <= j < |r| ensures Le(s[0], r[j]) {
          assert r[j] in multiset(r);
          assert r[j] == x || r[j] in s[1..];
        }
      }
    }
  }

  lemma {:induction false} SortSorted(s: seq<string>)
    ensures Sorted(Sort(s))
  {
    if s != [] {
      SortSorted(s[1..]);
      InsertSorted(s[0], Sort(s[1..]));
    }
  }

  lemma SortedHead(a: seq<string>, b: seq<string>)
    requires Sorted(a) && Sorted(b) && multiset(a) == multiset(b) && a != [] && b != []
    ensures a[0] == b[0]
  {
    assert a[0] in multiset(b) && b[0] in multiset(a);
    var i :| 0 <= i < |a| && a[i] == b[0];
    var j :| 0 <= j < |b| && b[j] == a[0];
    LeReflexive(a[0]);
    LeAntisymmetric(a[0], b[0]);
  }

  lemma {:induction false} SortedUnique(a: seq<string>, b: seq<string>)
    requires Sorted(a) && Sorted(b) && multiset(a) == multiset(b)
    ensures a == b
  {
    assert |a| == |multiset(a)| && |b| == |multiset(b)|;
    if a != [] {
      hide Sorted;
      SortedHead(a, b);
      SortedTail(a);
      SortedTail(b);
      SameTails(a, b);
      SortedUnique(a[1..], b[1..]);
      assert a == [a[0]] + a[1..] && b == [b[0]] + b[1..];
    }
  }

  lemma SortedTail(a: seq<string>)
    requires Sorted(a) && a != []
    ensures Sorted(a[1..])
  {
  }

  lemma SameTails(a: seq<string>, b: seq<string>)
    requires a != [] && b != [] && a[0] == b[0] && multiset(a) == multiset(b)
    ensures multiset(a[1..]) == multiset(b[1..])
  {
    var x, s, t := a[0], a[1..], b[1..];
    assert a == [x] + s && b == [x] + t;
    assert multiset(s) == multiset(a) - multiset{x} && multiset(t) == multiset(b) - multiset{x};
  }

  lemma LeReflexive(a: string)
    ensures Le(a, a)
  {
    LeTotal(a, a);
  }

  /** Sorting forgets the order of the keys and nothing else. */
  lemma SortCanonical(a: seq<string>, b: seq<string>)
    ensures Sort(a) == Sort(b) <==> multiset(a) == multiset(b)
  {
    SortSorted(a);
    SortSorted(b);
    if multiset(a) == multiset(b) { SortedUnique(Sort(a), Sort(b)); }
  }
}
