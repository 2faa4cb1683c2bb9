/**
 Agency slugs: the base made from the agency's name, and the search for one that no agency has yet.
 Letters are lower-cased as in ASCII.
 */
module Slugs {
  import opened Options
  import opened Text

  const MAX_BASE := 80

  predicate IsAlnum(c: char) { 'a' <= c <= 'z' || '0' <= c <= '9' }

  function LowerChar(c: char): char {
    if 'A' <= c <= 'Z' then (c as int - 'A' as int + 'a' as int) as char else c
  }

  function Lower(s: string): (r: string)
    ensures |r| == |s| && forall i :: 0 <= i < |s| ==> r[i] == LowerChar(s[i])
  {
    if s == "" then "" else [LowerChar(s[0])] + Lower(s[1..])
  }

  /** Every run of characters other than letters and digits becomes one hyphen. */
  function Hyphenate(s: string, inRun: bool): string {
    if s == "" then ""
    else if IsAlnum(s[0]) then [s[0]] + Hyphenate(s[1..], false)
    else if inRun then Hyphenate(s[1..], true)
    else "-" + Hyphenate(s[1..], true)
  }

  function TrimStart(s: string): string { if s != "" && s[0] == '-' then TrimStart(s[1..]) else s }

  function TrimEnd(s: string): string {
    if s != "" && s[|s| - 1] == '-' then TrimEnd(s[..|s| - 1]) else s
  }

  function Base(name: string): string {
    var trimmed := TrimEnd(TrimStart(Hyphenate(Lower(name), false)));
    if |trimmed| > MAX_BASE then trimmed[..MAX_BASE] else trimmed
  }

  /** Letters and digits in groups joined by single hyphens, none in front. */
  ghost predicate Shaped(s: string) {
    (forall i :: 0 <= i < |s| ==> IsAlnum(s[i]) || s[i] == '-')
    && (forall i :: 0 <= i < |s| - 1 ==> s[i] != '-' || s[i + 1] != '-')
  }

  lemma {:induction false} HyphenateShape(s: string, inRun: bool)
    ensures Shaped(Hyphenate(s, inRun))
    ensures inRun && Hyphenate(s, inRun) != "" ==> Hyphenate(s, inRun)[0] != '-'
  {
    if s == "" {
    } else {
      var next := !IsAlnum(s[0]);
      HyphenateShape(s[1..], next);
      var r, rest := Hyphenate(s, inRun), Hyphenate(s[1..], next);
      if !(next && inRun) { assert r[1..] == rest; ShapedCons(r); }
    }
  }

  lemma ShapedCons(s: string)
    requires s != "" && (IsAlnum(s[0]) || s[0] == '-') && Shaped(s[1..])
    requires s[0] == '-' && |s| > 1 ==> s[1] != '-'
    ensures Shaped(s)
  {
    forall i | 0 <= i < |s| - 1 ensures s[i] != '-' || s[i + 1] != '-' {
      if i > 0 { assert s[1..][i - 1] == s[i] && s[1..][i] == s[i + 1]; }
    }
    forall i | 0 <= i < |s| ensures IsAlnum(s[i]) || s[i] == '-' {
      if i > 0 { assert s[1..][i - 1] == s[i]; }
    }
  }

  lemma {:induction false} HyphenateShaped(s: string, inRun: bool)
    requires Shaped(s) && (inRun && s != "" ==> s[0] != '-')
    ensures Hyphenate(s, inRun) == s
  {
    if s != "" {
      assert forall i :: 0 <= i < |s| - 1 ==> s[1..][i] == s[i + 1];
      HyphenateShaped(s[1..], !IsAlnum(s[0]));
      assert [s[0]] + s[1..] == s;
    }
  }

  lemma {:induction false} TrimStartOnce(s: string)
    requires Shaped(s)
    ensures TrimStart(s) == if s != "" && s[0] == '-' then s[1..] else s
    ensures Shaped(TrimStart(s)) && (TrimStart(s) != "" ==> TrimStart(s)[0] != '-')
  {
    if s != "" && s[0] == '-' {
      assert forall i :: 0 <= i < |s| - 1 ==> s[1..][i] == s[i + 1];
      assert TrimStart(s[1..]) == s[1..];
    }
  }

  lemma TrimEndOnce(s: string)
    requires Shaped(s)
    ensures TrimEnd(s) == if s != "" && s[|s| - 1] == '-' then s[..|s| - 1] else s
    ensures Shaped(TrimEnd(s)) && (TrimEnd(s) != "" ==> TrimEnd(s)[|TrimEnd(s)| - 1] != '-')
    ensures TrimEnd(s) != "" ==> TrimEnd(s)[0] == s[0]
  {
    if s != "" && s[|s| - 1] == '-' {
      assert TrimEnd(s[..|s| - 1]) == s[..|s| - 1];
    }
  }

  lemma {:induction false} LowerShaped(s: string)
    requires Shaped(s)
    ensures Lower(s) == s
  {
    assert forall i :: 0 <= i < |s| ==> Lower(s)[i] == s[i];
  }

  /** The base is well shaped, never starts with a hyphen, and ends in one only where it was cut. */
  lemma BaseShape(name: string)
    ensures var b := Base(name);
            Shaped(b) && |b| <= MAX_BASE && (b != "" ==> b[0] != '-') && (b != "" && b[|b| - 1] == '-' ==> |b| == MAX_BASE)
  {
    var h := Hyphenate(Lower(name), false);
    HyphenateShape(Lower(name), false);
    TrimStartOnce(h);
    TrimEndOnce(TrimStart(h));
  }

  /** A base is its own base, except that a hyphen left by the cut is dropped. */
  lemma BaseOfBase(name: string)
    ensures var b := Base(name);
            Base(b) == if b != "" && b[|b| - 1] == '-' then b[..|b| - 1] else b
  {
    var b := Base(name);
    BaseShape(name);
    LowerShaped(b);
    HyphenateShaped(b, false);
    TrimStartOnce(b);
    TrimEndOnce(b);
  }

  /** The runs of letters and digits. */
  function Words(s: string): seq<string> {
    if s == "" then []
    else if !IsAlnum(s[0]) then Words(s[1..])
    else if |s| > 1 && IsAlnum(s[1]) && Words(s[1..]) != [] then [[s[0]] + Words(s[1..])[0]] + Words(s[1..])[1..]
    else [[s[0]]] + Words(s[1..])
  }

  predicate IsWord(w: string) { w != "" && forall i :: 0 <= i < |w| ==> IsAlnum(w[i]) }

  lemma {:induction false} WordsAreWords(s: string)
    ensures forall w :: w in Words(s) ==> IsWord(w)
    ensures s != "" && IsAlnum(s[0]) ==> Words(s) != [] && Words(s)[0][0] == s[0]
    ensures Words(s) == [] <==> forall i :: 0 <= i < |s| ==> !IsAlnum(s[i])
  {
    if s != "" {
      WordsAreWords(s[1..]);
      assert forall i :: 1 <= i < |s| ==> s[i] == s[1..][i - 1];
      if IsAlnum(s[0]) && |s| > 1 && IsAlnum(s[1]) {
        var w := Words(s[1..]);
        assert w[0] in w;
        assert w == [w[0]] + w[1..];
      }
    }
  }

  /** What is left over after the last word. */
  function Rest(s: string): string { if Words(s) != [] && !IsAlnum(s[|s| - 1]) then "-" else "" }

  lemma HyphenateFront(s: string)
    ensures s != "" && IsAlnum(s[0]) ==> Hyphenate(s, false) == Hyphenate(s, true)
    ensures s != "" && !IsAlnum(s[0]) ==> Hyphenate(s, false) == "-" + Hyphenate(s, true)
  {
  }

  lemma {:induction false} HyphenateJoins(s: string)
    ensures Hyphenate(s, true) == Join('-', Words(s)) + Rest(s)
  {
    hide Hyphenate, Words, Join;
    if s == "" {
      NoWords();
    } else {
      HyphenateJoins(s[1..]);
      OneCharMore(s);
    }
  }

  lemma NoWords()
    ensures Hyphenate("", true) == "" == Join('-', Words("")) && Words("") == []
  {
  }

  lemma OneCharMore(s: string)
    requires s != "" && Hyphenate(s[1..], true) == Join('-', Words(s[1..])) + Rest(s[1..])
    ensures Hyphenate(s, true) == Join('-', Words(s)) + Rest(s)
  {
    hide Join, Words, Hyphenate;
    WordsAreWords(s[1..]);
    HyphenateFront(s[1..]);
    HyphenateStep(s);
    UnrollWords(s);
    NoWords();
    assert s[1..] != "" ==> s[1..][|s| - 2] == s[|s| - 1];
    if IsAlnum(s[0]) {
      if |s| > 1 && IsAlnum(s[1]) { WordGrows(s); } else { WordEnds(s); }
    }
  }

  /** A letter before a letter goes on with its word. */
  lemma WordGrows(s: string)
    requires |s| > 1 && IsAlnum(s[0]) && IsAlnum(s[1]) && Hyphenate(s[1..], true) == Join('-', Words(s[1..])) + Rest(s[1..])
    ensures Hyphenate(s, true) == Join('-', Words(s)) + Rest(s)
  {
    hide Join, Words, Hyphenate;
    WordsAreWords(s[1..]);
    HyphenateFront(s[1..]);
    HyphenateStep(s);
    UnrollWords(s);
    JoinFront(s[0], Words(s[1..]));
    assert Rest(s) == Rest(s[1..]);
  }

  /** A letter before something else, or the end, is the end of its word. */
  lemma WordEnds(s: string)
    requires s != "" && IsAlnum(s[0]) && (|s| > 1 ==> !IsAlnum(s[1]))
    requires Hyphenate(s[1..], true) == Join('-', Words(s[1..])) + Rest(s[1..])
    ensures Hyphenate(s, true) == Join('-', Words(s)) + Rest(s)
  {
    hide Join, Words, Hyphenate, Rest;
    var t := s[1..];
    HyphenateFront(t);
    HyphenateStep(s);
    HyphenateNothing();
    UnrollWords(s);
    JoinCons([s[0]], Words(t));
    RestStays(s);
    JoinNothing();
    if Words(t) != [] {
      NoWords();
      assert [s[0]] + ("-" + (Join('-', Words(t)) + Rest(t))) == ([s[0]] + ("-" + Join('-', Words(t)))) + Rest(t);
    }
  }

  lemma RestStays(s: string)
    requires s != "" && IsAlnum(s[0])
    ensures Words(s[1..]) != [] ==> Rest(s) == Rest(s[1..])
    ensures Words(s[1..]) == [] ==> Rest(s[1..]) == "" && Rest(s) == if |s| > 1 then "-" else ""
  {
    hide Words;
    UnrollWords(s);
    WordsAreWords(s);
    WordsAreWords(s[1..]);
    NoWords();
    if |s| > 1 { assert s[1..][|s| - 2] == s[|s| - 1]; }
  }

  lemma HyphenateStep(s: string)
    requires s != ""
    ensures Hyphenate(s, true) == if IsAlnum(s[0]) then [s[0]] + Hyphenate(s[1..], false) else Hyphenate(s[1..], true)
  {
  }

  lemma UnrollWords(s: string)
    requires s != ""
    ensures var w := Words(s[1..]);
            Words(s) == if !IsAlnum(s[0]) then w
                        else if |s| > 1 && IsAlnum(s[1]) && w != [] then [[s[0]] + w[0]] + w[1..] else [[s[0]]] + w
  {
  }

  lemma JoinCons(x: string, w: seq<string>)
    ensures Join('-', [x] + w) == x + if w == [] then "" else "-" + Join('-', w)
  {
    assert ([x] + w)[1..] == w;
  }

  lemma JoinFront(c: char, w: seq<string>)
    requires w != []
    ensures Join('-', [[c] + w[0]] + w[1..]) == [c] + Join('-', w)
  {
    assert ([[c] + w[0]] + w[1..])[1..] == w[1..];
  }

  lemma {:induction false} JoinEnds(w: seq<string>)
    requires w != [] && forall x :: x in w ==> IsWord(x)
    ensures var j := Join('-', w); j != "" && IsAlnum(j[0]) && IsAlnum(j[|j| - 1])
  {
    assert w[0] in w;
    if |w| > 1 { JoinEnds(w[1..]); }
  }

  /** A base is the words of the lower-cased name joined by hyphens, the first eighty characters of that. */
  lemma BaseIsWords(name: string)
    ensures var joined := Join('-', Words(Lower(name)));
            Base(name) <= joined && |Base(name)| == if |joined| > 80 then 80 else |joined|
  {
    hide Join, Words, Hyphenate, Lower, TrimStart, TrimEnd;
    TrimmedIsWords(Lower(name));
  }

  lemma TrimmedIsWords(s: string)
    ensures TrimEnd(TrimStart(Hyphenate(s, false))) == Join('-', Words(s))
  {
    hide Join, Words, Hyphenate, TrimStart, TrimEnd;
    var h, joined := Hyphenate(s, false), Join('-', Words(s));
    HyphenateJoins(s);
    HyphenateFront(s);
    HyphenateNothing();
    HyphenateShape(s, false);
    WordsAreWords(s);
    TrimStartOnce(h);
    TrimEndOnce(TrimStart(h));
    if Words(s) != [] {
      JoinEnds(Words(s));
      assert (joined + Rest(s))[0] == joined[0];
      assert TrimStart(h) == joined + Rest(s);
      assert (joined + "-")[..|joined|] == joined;
    } else {
      JoinNothing();
    }
  }

  lemma HyphenateNothing()
    ensures Hyphenate("", false) == "" == Hyphenate("", true)
  {
  }

  lemma JoinNothing()
    ensures Join('-', []) == ""
  {
  }

  const CAPITALS := "ABCDEFGHIJKLMNOPQRSTUVWXYZ"
  const LETTERS := "abcdefghijklmnopqrstuvwxyz"

  /** Capitals become the letters in the same place; everything else stays. */
  lemma LowerIsAscii(c: char)
    ensures forall i :: 0 <= i < 26 && c == CAPITALS[i] ==> LowerChar(c) == LETTERS[i]
    ensures c !in CAPITALS ==> LowerChar(c) == c
  {
    Alphabet(0);
    hide CAPITALS, LETTERS;
    forall i | 0 <= i < 26 && c == CAPITALS[i] ensures LowerChar(c) == LETTERS[i] { Alphabet(i); }
    if 'A' <= c <= 'Z' { Alphabet(c as int - 'A' as int); }
  }

  lemma Alphabet(i: nat)
    requires i < 26
    ensures |CAPITALS| == |LETTERS| == 26
    ensures CAPITALS[i] as int == 'A' as int + i && LETTERS[i] as int == 'a' as int + i
  {
  }

  // ---------- the search ----------

  /** The slugs tried, in order: the base, base-1, base-2, ... */
  function Candidate(base: string, k: nat): string { if k == 0 then base else base + "-" + Decimal(k) }

  lemma CandidateInjective(base: string, j: nat, k: nat)
    requires Candidate(base, j) == Candidate(base, k)
    ensures j == k
  {
    if j > 0 && k > 0 {
      assert Candidate(base, j)[|base| + 1..] == Decimal(j);
      assert Candidate(base, k)[|base| + 1..] == Decimal(k);
      DecimalInjective(j, k);
    }
  }

  ghost function Tried(base: string, k: nat): set<string> { set j: nat | j < k :: Candidate(base, j) }

  lemma {:induction false} TriedSize(base: string, k: nat)
    ensures |Tried(base, k)| == k
  {
    if k > 0 {
      TriedSize(base, k - 1);
      assert Tried(base, k) == Tried(base, k - 1) + {Candidate(base, k - 1)};
      if Candidate(base, k - 1) in Tried(base, k - 1) {
        var j: nat :| j < k - 1 && Candidate(base, j) == Candidate(base, k - 1);
        CandidateInjective(base, j, k - 1);
      }
    }
  }

  /** More candidates than slugs cannot all be taken. */
  lemma TooManyTried(base: string, k: nat, existing: set<string>)
    requires forall j: nat :: j < k ==> Candidate(base, j) in existing
    ensures k <= |existing|
  {
    TriedSize(base, k);
    SubsetSize(Tried(base, k), existing);
  }

  method GenerateUniqueSlug(agencyName: string, existing: set<string>) returns (slug: string, probes: nat)
    ensures slug !in existing
    ensures 1 <= probes <= |existing| + 1 && slug == Candidate(Base(agencyName), probes - 1)
    ensures slug == Base(agencyName) + if probes == 1 then "" else "-" + Decimal(probes - 1)
    ensures forall j: nat :: j < probes - 1 ==> Candidate(Base(agencyName), j) in existing
  {
    var base := Base(agencyName);
    slug := base;
    var suffix := 1;
    probes := 1;
    while slug in existing
      invariant suffix == probes >= 1
      invariant slug == Candidate(base, probes - 1)
      invariant forall j: nat :: j < probes - 1 ==> Candidate(base, j) in existing
      decreases |existing| + 1 - probes
    {
      TooManyTried(base, probes, existing);
      slug := base + "-" + Decimal(suffix);
      suffix := suffix + 1;
      probes := probes + 1;
    }
    TooManyTried(base, probes - 1, existing);
  }
}
