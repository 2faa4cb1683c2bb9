/**
 The scheduled sync: which connections a cycle takes, the batch loop that dispatches them, and the
 window of days each of them asks for.
 */
module SyncScheduler {
  import opened Options
  import opened Calendar

  const MAX_JOBS_PER_CYCLE := 500
  const BATCH_SIZE := 50
  const BACKFILL_DAYS := 90
  const MAX_WINDOW_DAYS := 30
  const OVERLAP_DAYS := 1

  // ---------- windows ----------

  /** The days from..to, both included. */
  datatype Window = Window(from: int, to: int) {
    predicate Has(day: int) { from <= day <= to }
  }

  function Max(a: int, b: int): int { if a < b then b else a }

  function Day(ms: int): int { ms / MS_PER_DAY }

  function WindowOf(lastSyncAt: Option<int>, today: int): Window {
    var todayMs := today * MS_PER_DAY;
    var earliest := todayMs - MAX_WINDOW_DAYS * MS_PER_DAY;
    var fromMs := match lastSyncAt
      case None => Max(todayMs - BACKFILL_DAYS * MS_PER_DAY, earliest)
      case Some(at) => Max(at - OVERLAP_DAYS * MS_PER_DAY, earliest);
    Window(Day(fromMs), today)
  }

  function CalculateDateRange(lastSyncAt: Option<int>, today: string): (string, string)
    requires IsDate(today)
  {
    (IsoDate(WindowOf(lastSyncAt, DayOf(today)).from), today)
  }

  /** Counted in days: the day before the last sync, or thirty days ago if that is later. */
  lemma WindowDays(lastSyncAt: Option<int>, today: int)
    ensures var w := WindowOf(lastSyncAt, today);
            w.to == today && w.from == match lastSyncAt case None => today - 30 case Some(at) => Max(Day(at) - 1, today - 30)
  {
    WholeDay(today - 30);
    if lastSyncAt.Some? { DayBefore(lastSyncAt.value, today - 30); }
  }

  lemma DayBefore(ms: int, day: int)
    ensures Day(Max(ms - MS_PER_DAY, day * MS_PER_DAY)) == Max(Day(ms) - 1, day)
  {
  }

  /** A window never spans more than 31 days, and is empty only when the last sync is two days ahead. */
  lemma WindowSpan(lastSyncAt: Option<int>, today: int)
    ensures var w := WindowOf(lastSyncAt, today);
            w.to - w.from + 1 <= MAX_WINDOW_DAYS + 1 &&
            (w.from <= w.to <==> lastSyncAt.Some? ==> Day(lastSyncAt.value) <= today + 1)
  {
    hide WindowOf;
    WindowDays(lastSyncAt, today);
  }

  lemma RangeIsWindow(lastSyncAt: Option<int>, today: string)
    requires IsDate(today) && YearOf(WindowOf(lastSyncAt, DayOf(today)).from) >= 0
    requires lastSyncAt.Some? ==> Day(lastSyncAt.value) <= DayOf(today) + 1
    ensures var r := CalculateDateRange(lastSyncAt, today); var w := WindowOf(lastSyncAt, DayOf(today));
            ParseDate(r.0) == Some(w.from) && ParseDate(r.1) == Some(w.to)
  {
    hide ParseDate, IsoDate, YearOf, WindowOf;
    WindowSpan(lastSyncAt, DayOf(today));
    WindowDays(lastSyncAt, DayOf(today));
    ParsedYear(today);
    YearOfMonotone(WindowOf(lastSyncAt, DayOf(today)).from, DayOf(today));
    ParseIsoDate(WindowOf(lastSyncAt, DayOf(today)).from);
  }

  // ---------- coverage ----------

  /** One dispatched job of a connection: the day it was dispatched, and when it completed; None if it failed. */
  datatype Job = Job(today: int, done: Option<int>)

  /** Each job ends before the next is dispatched, and the clock does not go back. */
  ghost predicate Serial(day: int, jobs: seq<Job>)
    decreases |jobs|
  {
    jobs == [] ||
    (day <= jobs[0].today && (jobs[0].done.Some? ==> jobs[0].today <= Day(jobs[0].done.value)) &&
     Serial(if jobs[0].done.Some? then Day(jobs[0].done.value) else jobs[0].today, jobs[1..]))
  }

  /** The windows fetched. Only markSynced moves lastSyncAt, so a failed job fetches and changes nothing. */
  function Windows(lastSyncAt: Option<int>, jobs: seq<Job>): seq<Window>
    decreases |jobs|
  {
    if jobs == [] then []
    else if jobs[0].done.Some? then [WindowOf(lastSyncAt, jobs[0].today)] + Windows(jobs[0].done, jobs[1..])
    else Windows(lastSyncAt, jobs[1..])
  }

  function Succeeded(jobs: seq<Job>): (r: seq<Job>)
    ensures forall i :: 0 <= i < |r| ==> r[i].done.Some?
    decreases |jobs|
  {
    if jobs == [] then []
    else (if jobs[0].done.Some? then [jobs[0]] else []) + Succeeded(jobs[1..])
  }

  ghost predicate Covered(ws: seq<Window>, day: int) { exists i :: 0 <= i < |ws| && ws[i].Has(day) }

  /** Every day from the first one fetched to the last is in some window. */
  ghost predicate NoDayMissing(ws: seq<Window>) {
    |ws| > 0 ==> forall day :: ws[0].from <= day <= ws[|ws| - 1].to ==> Covered(ws, day)
  }

  /** Consecutive successes i and i + 1: completed at most two days after the window's end, and at most 31 days apart. */
  ghost predicate Timely(ok: seq<Job>)
    requires forall i :: 0 <= i < |ok| ==> ok[i].done.Some?
  {
    forall i :: 0 <= i < |ok| - 1 ==> TimelyAt(ok, i)
  }

  predicate TimelyAt(ok: seq<Job>, i: nat)
    requires i + 1 < |ok| && ok[i].done.Some?
  {
    Day(ok[i].done.value) <= ok[i].today + 2 && ok[i + 1].today <= ok[i].today + 31
  }

  function LastBefore(lastSyncAt: Option<int>, ok: seq<Job>, i: nat): Option<int>
    requires i < |ok|
  {
    if i == 0 then lastSyncAt else ok[i - 1].done
  }

  ghost predicate WindowsAre(lastSyncAt: Option<int>, ok: seq<Job>, ws: seq<Window>) {
    |ws| == |ok| && forall i :: 0 <= i < |ok| ==> ws[i] == WindowOf(LastBefore(lastSyncAt, ok, i), ok[i].today)
  }

  lemma {:induction false} WindowsOfSuccesses(lastSyncAt: Option<int>, jobs: seq<Job>)
    ensures WindowsAre(lastSyncAt, Succeeded(jobs), Windows(lastSyncAt, jobs))
    decreases |jobs|
  {
    hide WindowOf, WindowsAre;
    if jobs == [] {
      NoWindows(lastSyncAt);
    } else if jobs[0].done.Some? {
      WindowsOfSuccesses(jobs[0].done, jobs[1..]);
      OneWindowMore(lastSyncAt, jobs[0], Succeeded(jobs[1..]), Windows(jobs[0].done, jobs[1..]));
    } else {
      WindowsOfSuccesses(lastSyncAt, jobs[1..]);
      assert Succeeded(jobs) == Succeeded(jobs[1..]);
    }
  }

  lemma NoWindows(lastSyncAt: Option<int>)
    ensures WindowsAre(lastSyncAt, [], [])
  {
  }

  lemma OneWindowMore(lastSyncAt: Option<int>, job: Job, ok: seq<Job>, ws: seq<Window>)
    requires WindowsAre(job.done, ok, ws)
    ensures WindowsAre(lastSyncAt, [job] + ok, [WindowOf(lastSyncAt, job.today)] + ws)
  {
    hide WindowOf;
    var ok1, ws1 := [job] + ok, [WindowOf(lastSyncAt, job.today)] + ws;
    forall i | 0 <= i < |ok1| ensures ws1[i] == WindowOf(LastBefore(lastSyncAt, ok1, i), ok1[i].today) {
      if i > 0 {
        assert ok1[i] == ok[i - 1] && ws1[i] == ws[i - 1];
        assert LastBefore(job.done, ok, i - 1) == LastBefore(lastSyncAt, ok1, i);
      }
    }
  }

  ghost predicate SerialSuccesses(day: int, ok: seq<Job>)
    requires forall i :: 0 <= i < |ok| ==> ok[i].done.Some?
  {
    (forall i :: 0 <= i < |ok| ==> day <= ok[i].today <= Day(ok[i].done.value))
    && forall i, j :: 0 <= i < j < |ok| ==> Day(ok[i].done.value) <= ok[j].today
  }

  lemma {:induction false} SuccessesAreSerial(day: int, jobs: seq<Job>)
    requires Serial(day, jobs)
    ensures SerialSuccesses(day, Succeeded(jobs))
    decreases |jobs|
  {
    hide Day, SerialSuccesses;
    if jobs == [] {
      NoSuccesses(day);
    } else if jobs[0].done.Some? {
      SuccessesAreSerial(Day(jobs[0].done.value), jobs[1..]);
      OneSuccessMore(day, jobs[0], Succeeded(jobs[1..]));
    } else {
      SuccessesAreSerial(jobs[0].today, jobs[1..]);
      LaterStart(day, jobs[0].today, Succeeded(jobs[1..]));
      assert Succeeded(jobs) == Succeeded(jobs[1..]);
    }
  }

  lemma NoSuccesses(day: int)
    ensures SerialSuccesses(day, [])
  {
  }

  lemma LaterStart(day: int, later: int, ok: seq<Job>)
    requires (forall i :: 0 <= i < |ok| ==> ok[i].done.Some?) && SerialSuccesses(later, ok) && day <= later
    ensures SerialSuccesses(day, ok)
  {
    hide Day;
  }

  lemma OneSuccessMore(day: int, job: Job, ok: seq<Job>)
    requires forall i :: 0 <= i < |ok| ==> ok[i].done.Some?
    requires job.done.Some? && day <= job.today <= Day(job.done.value) && SerialSuccesses(Day(job.done.value), ok)
    ensures SerialSuccesses(day, [job] + ok)
  {
    hide Day;
    var all := [job] + ok;
    forall i | 0 <= i < |all| ensures day <= all[i].today <= Day(all[i].done.value) {
      if i > 0 { assert all[i] == ok[i - 1]; }
    }
    forall i, j | 0 <= i < j < |all| ensures Day(all[i].done.value) <= all[j].today {
      assert all[j] == ok[j - 1] && (i > 0 ==> all[i] == ok[i - 1]);
    }
  }

  /** Windows in order, none ending before it starts. */
  ghost predicate Ordered(ws: seq<Window>) {
    (forall i :: 0 <= i < |ws| ==> ws[i].from <= ws[i].to)
    && forall i, j :: 0 <= i < j < |ws| ==> ws[i].from <= ws[j].from && ws[i].to <= ws[j].to
  }

  ghost predicate Touching(ws: seq<Window>) {
    forall i :: 0 <= i < |ws| - 1 ==> Touches(ws, i)
  }

  predicate Touches(ws: seq<Window>, i: nat)
    requires i + 1 < |ws|
  {
    ws[i + 1].from <= ws[i].to + 1
  }

  lemma {:induction false} TouchingCovers(ws: seq<Window>, n: nat, day: int)
    requires Touching(ws) && n < |ws| && ws[0].from <= day <= ws[n].to
    ensures Covered(ws, day)
  {
    if ws[n].from <= day {
      assert ws[n].Has(day);
    } else {
      assert n > 0 && Touches(ws, n - 1);
      TouchingCovers(ws, n - 1, day);
    }
  }

  /** A day between two windows that do not touch is in none. */
  lemma GapIsMissing(ws: seq<Window>, i: nat)
    requires Ordered(ws) && i + 1 < |ws| && ws[i + 1].from > ws[i].to + 1
    ensures !Covered(ws, ws[i].to + 1)
  {
    forall k | 0 <= k < |ws| ensures !ws[k].Has(ws[i].to + 1) {
      assert k <= i || i + 1 <= k;
    }
  }

  lemma CoveredIffTouching(ws: seq<Window>)
    requires Ordered(ws)
    ensures NoDayMissing(ws) <==> Touching(ws)
  {
    if |ws| > 0 {
      if Touching(ws) {
        forall day | ws[0].from <= day <= ws[|ws| - 1].to ensures Covered(ws, day) { TouchingCovers(ws, |ws| - 1, day); }
      } else {
        var i :| 0 <= i < |ws| - 1 && !Touches(ws, i);
        GapIsMissing(ws, i);
        assert ws[0].from <= ws[i].to + 1 <= ws[|ws| - 1].to;
      }
    }
  }

  lemma SerialWindowsOrdered(day: int, lastSyncAt: Option<int>, ok: seq<Job>, ws: seq<Window>)
    requires forall i :: 0 <= i < |ok| ==> ok[i].done.Some?
    requires SerialSuccesses(day, ok) && (lastSyncAt.Some? ==> Day(lastSyncAt.value) <= day)
    requires WindowsAre(lastSyncAt, ok, ws)
    ensures Ordered(ws) && (Touching(ws) <==> Timely(ok))
  {
    hide Ordered, Touching, Timely, SerialSuccesses, WindowsAre;
    InOrderAll(day, lastSyncAt, ok, ws);
    TouchesAll(lastSyncAt, ok, ws);
  }

  lemma InOrderAll(day: int, lastSyncAt: Option<int>, ok: seq<Job>, ws: seq<Window>)
    requires forall i :: 0 <= i < |ok| ==> ok[i].done.Some?
    requires SerialSuccesses(day, ok) && (lastSyncAt.Some? ==> Day(lastSyncAt.value) <= day)
    requires WindowsAre(lastSyncAt, ok, ws)
    ensures Ordered(ws)
  {
    hide WindowOf, Day, FromDay, SerialSuccesses, WindowsAre;
    forall i | 0 <= i < |ws| ensures ws[i].from <= ws[i].to {
      FromDayHolds(lastSyncAt, ok, ws, i);
      StartsBeforeEnd(day, lastSyncAt, ok, ws, i);
    }
    forall i, j | 0 <= i < j < |ws| ensures ws[i].from <= ws[j].from && ws[i].to <= ws[j].to {
      FromDayHolds(lastSyncAt, ok, ws, i);
      FromDayHolds(lastSyncAt, ok, ws, j);
      InOrder(day, lastSyncAt, ok, ws, i, j);
    }
  }

  lemma TouchesAll(lastSyncAt: Option<int>, ok: seq<Job>, ws: seq<Window>)
    requires forall i :: 0 <= i < |ok| ==> ok[i].done.Some?
    requires WindowsAre(lastSyncAt, ok, ws)
    ensures Touching(ws) <==> Timely(ok)
  {
    hide WindowOf, Day, FromDay, WindowsAre;
    assert |ws| == |ok| by { SameLength(lastSyncAt, ok, ws); }
    forall i | 0 <= i < |ws| - 1 ensures Touches(ws, i) <==> TimelyAt(ok, i) {
      FromDayHolds(lastSyncAt, ok, ws, i);
      FromDayHolds(lastSyncAt, ok, ws, i + 1);
      TouchesNext(lastSyncAt, ok, ws, i);
    }
  }

  lemma SameLength(lastSyncAt: Option<int>, ok: seq<Job>, ws: seq<Window>)
    requires WindowsAre(lastSyncAt, ok, ws)
    ensures |ws| == |ok|
  {
  }

  lemma FromDayHolds(lastSyncAt: Option<int>, ok: seq<Job>, ws: seq<Window>, i: nat)
    requires WindowsAre(lastSyncAt, ok, ws) && i < |ws|
    ensures FromDay(lastSyncAt, ok, ws, i)
  {
    hide WindowOf, Day;
    WindowDays(LastBefore(lastSyncAt, ok, i), ok[i].today);
  }

  lemma StartsBeforeEnd(day: int, lastSyncAt: Option<int>, ok: seq<Job>, ws: seq<Window>, i: nat)
    requires forall k :: 0 <= k < |ok| ==> ok[k].done.Some?
    requires SerialSuccesses(day, ok) && (lastSyncAt.Some? ==> Day(lastSyncAt.value) <= day)
    requires FromDay(lastSyncAt, ok, ws, i)
    ensures ws[i].from <= ws[i].to
  {
    hide Day;
    if i > 0 { assert Day(ok[i - 1].done.value) <= ok[i].today; }
  }

  lemma InOrder(day: int, lastSyncAt: Option<int>, ok: seq<Job>, ws: seq<Window>, i: nat, j: nat)
    requires forall k :: 0 <= k < |ok| ==> ok[k].done.Some?
    requires SerialSuccesses(day, ok) && (lastSyncAt.Some? ==> Day(lastSyncAt.value) <= day)
    requires i < j && FromDay(lastSyncAt, ok, ws, i) && FromDay(lastSyncAt, ok, ws, j)
    ensures ws[i].from <= ws[j].from && ws[i].to <= ws[j].to
  {
    hide Day;
    var p := j - 1;
    assert ok[i].today <= Day(ok[i].done.value) <= ok[j].today;
    assert ok[p].today <= Day(ok[p].done.value);
    if i < p { assert Day(ok[i].done.value) <= ok[p].today; }
    if i > 0 {
      var q := i - 1;
      assert Day(ok[q].done.value) <= ok[i].today;
    }
  }

  lemma TouchesNext(lastSyncAt: Option<int>, ok: seq<Job>, ws: seq<Window>, i: nat)
    requires forall k :: 0 <= k < |ok| ==> ok[k].done.Some?
    requires FromDay(lastSyncAt, ok, ws, i) && FromDay(lastSyncAt, ok, ws, i + 1)
    ensures Touches(ws, i) <==> TimelyAt(ok, i)
  {
    hide Day;
  }

  ghost predicate FromDay(lastSyncAt: Option<int>, ok: seq<Job>, ws: seq<Window>, i: int) {
    0 <= i < |ok| == |ws| && ws[i].to == ok[i].today &&
    ws[i].from == match LastBefore(lastSyncAt, ok, i)
      case None => ok[i].today - 30
      case Some(at) => Max(Day(at) - 1, ok[i].today - 30)
  }

  /**
   The days fetched for a connection over any serial run of its jobs have no hole exactly when each
   success completes at most two days after its window's end and the next success is dispatched at most
   31 days after it. Failed jobs in between do not matter.
   */
  lemma CoverageExact(day: int, lastSyncAt: Option<int>, jobs: seq<Job>)
    requires Serial(day, jobs) && (lastSyncAt.Some? ==> Day(lastSyncAt.value) <= day)
    ensures NoDayMissing(Windows(lastSyncAt, jobs)) <==> Timely(Succeeded(jobs))
  {
    hide WindowOf, Day, Windows, Succeeded, NoDayMissing, Touching, Timely;
    WindowsOfSuccesses(lastSyncAt, jobs);
    SuccessesAreSerial(day, jobs);
    SerialWindowsOrdered(day, lastSyncAt, Succeeded(jobs), Windows(lastSyncAt, jobs));
    CoveredIffTouching(Windows(lastSyncAt, jobs));
  }

  // ---------- the batch loop ----------

  datatype Connection = Connection(tenant: string, campaign: string, platform: string, lastSyncAt: Option<int>)

  datatype Dispatch = Dispatch(conn: Connection, from: string, to: string, delayMs: int)

  function PlatformDelay(platform: string): int {
    if platform == "GOOGLE_ADS" then 2 * 60 * 1_000
    else if platform == "META_ADS" then 4 * 60 * 1_000
    else 0
  }

  function DispatchOf(conn: Connection, today: string): Dispatch
    requires IsDate(today)
  {
    var range := CalculateDateRange(conn.lastSyncAt, today);
    Dispatch(conn, range.0, range.1, PlatformDelay(conn.platform))
  }

  /** The first day a connection asks for: the day before its last sync, thirty days back at most. */
  function FirstDay(conn: Connection, today: int): int {
    if conn.lastSyncAt.None? then today - 30 else Max(Day(conn.lastSyncAt.value) - 1, today - 30)
  }

  /** Minutes by which a platform's jobs are put off. */
  function Stagger(platform: string): int {
    if platform == "GOOGLE_ADS" then 2 else if platform == "META_ADS" then 4 else 0
  }

  /** The job of a connection: its days up to today, in years with four digits, and its platform's delay. */
  predicate IsJobFor(d: Dispatch, conn: Connection, today: string)
    requires IsDate(today)
  {
    d.conn == conn && d.to == today && d.delayMs == Stagger(conn.platform) * 60_000
    && (0 <= YearOf(FirstDay(conn, DayOf(today))) <= 9999 ==> ParseDate(d.from) == Some(FirstDay(conn, DayOf(today))))
  }

  lemma DispatchIsJob(conn: Connection, today: string)
    requires IsDate(today)
    ensures IsJobFor(DispatchOf(conn, today), conn, today)
  {
    hide ParseDate, IsoDate, YearOf, WindowOf;
    WindowDays(conn.lastSyncAt, DayOf(today));
    var first := FirstDay(conn, DayOf(today));
    assert WindowOf(conn.lastSyncAt, DayOf(today)).from == first;
    if 0 <= YearOf(first) <= 9999 { ParseIsoDate(first); }
  }

  function CountOf(outcomes: seq<bool>, b: bool): (n: nat)
    ensures n <= |outcomes|
  {
    if outcomes == [] then 0 else (if outcomes[0] == b then 1 else 0) + CountOf(outcomes[1..], b)
  }

  lemma {:induction false} CountSplits(a: seq<bool>, b: seq<bool>, x: bool)
    ensures CountOf(a + b, x) == CountOf(a, x) + CountOf(b, x)
  {
    if a == [] {
      assert a + b == b;
    } else {
      assert (a + b)[1..] == a[1..] + b;
      CountSplits(a[1..], b, x);
    }
  }

  lemma {:induction false} CountsComplete(a: seq<bool>)
    ensures CountOf(a, true) + CountOf(a, false) == |a|
    ensures a == [] ==> CountOf(a, true) == CountOf(a, false) == 0
  {
    if a != [] { CountsComplete(a[1..]); }
  }

  /** The attempts with this outcome. */
  function Which(outcomes: seq<bool>, b: bool): set<int> { set i | 0 <= i < |outcomes| && outcomes[i] == b }

  lemma {:induction false} CountIsSize(outcomes: seq<bool>, b: bool)
    ensures CountOf(outcomes, b) == |Which(outcomes, b)|
  {
    if outcomes != [] {
      var n := |outcomes| - 1;
      CountIsSize(outcomes[..n], b);
      assert outcomes == outcomes[..n] + [outcomes[n]];
      CountSplits(outcomes[..n], [outcomes[n]], b);
      assert Which(outcomes, b) == Which(outcomes[..n], b) + if outcomes[n] == b then {n} else {};
      assert CountOf([outcomes[n]], b) == if outcomes[n] == b then 1 else 0;
    }
  }

  lemma SentIsSize(attempts: seq<Dispatch>, outcomes: seq<bool>, queue: Dispatch -> bool)
    requires |outcomes| == |attempts| && forall i :: 0 <= i < |attempts| ==> outcomes[i] == queue(attempts[i])
    ensures CountOf(outcomes, true) == |set i | 0 <= i < |attempts| && queue(attempts[i])|
  {
    CountIsSize(outcomes, true);
    assert (set i | 0 <= i < |attempts| && queue(attempts[i])) == Which(outcomes, true);
  }

  /** Dispatching one batch; the queue decides whether each attempt succeeds. */
  method DispatchBatch(batch: seq<Connection>, today: string, queue: Dispatch -> bool)
    returns (attempts: seq<Dispatch>, results: seq<bool>)
    requires IsDate(today)
    ensures |attempts| == |results| == |batch|
    ensures forall i :: 0 <= i < |batch| ==> attempts[i] == DispatchOf(batch[i], today) && results[i] == queue(attempts[i])
  {
    hide CalculateDateRange, IsDate;
    attempts, results := [], [];
    for k := 0 to |batch|
      invariant |attempts| == |results| == k
      invariant forall i :: 0 <= i < k ==> attempts[i] == DispatchOf(batch[i], today) && results[i] == queue(attempts[i])
    {
      var conn := batch[k];
      var dateRange := CalculateDateRange(conn.lastSyncAt, today);
      var attempt := Dispatch(conn, dateRange.0, dateRange.1, PlatformDelay(conn.platform));
      attempts, results := attempts + [attempt], results + [queue(attempt)];
    }
  }

  /**
   Every selected connection is attempted exactly once, in the order of the selection; the two counters
   add up to the selection; and the run pauses once between each two batches of fifty.
   */
  method RunScheduledSync(connections: seq<Connection>, today: string, queue: Dispatch -> bool)
    returns (attempts: seq<Dispatch>, dispatched: int, failed: int, pauses: int)
    requires IsDate(today)
    ensures |attempts| == |connections|
    ensures forall i :: 0 <= i < |connections| ==> attempts[i] == DispatchOf(connections[i], today)
    ensures forall i :: 0 <= i < |connections| ==> IsJobFor(attempts[i], connections[i], today)
    ensures dispatched == |set i | 0 <= i < |attempts| && queue(attempts[i])|
    ensures dispatched + failed == |connections|
    ensures pauses == if connections == [] then 0 else (|connections| - 1) / 50
  {
    hide CalculateDateRange, ParseDate, YearOf, IsJobFor, DispatchOf, CountOf;
    CountsComplete([]);
    attempts, dispatched, failed, pauses := [], 0, 0, 0;
    if |connections| == 0 {
      SentIsSize(attempts, [], queue);
      return;
    }
    ghost var outcomes: seq<bool> := [];
    var i := 0;
    while i < |connections|
      invariant 0 <= i && i % BATCH_SIZE == 0
      invariant |attempts| == |outcomes| == if i < |connections| then i else |connections|
      invariant forall k :: 0 <= k < |attempts| ==> attempts[k] == DispatchOf(connections[k], today) && outcomes[k] == queue(attempts[k])
      invariant dispatched == CountOf(outcomes, true) && failed == CountOf(outcomes, false)
      invariant pauses * BATCH_SIZE == if i < |connections| then i else i - BATCH_SIZE
      invariant i < |connections| + BATCH_SIZE
    {
      var end := if i + BATCH_SIZE < |connections| then i + BATCH_SIZE else |connections|;
      var batch := connections[i..end];
      var tried, results := DispatchBatch(batch, today, queue);
      CountSplits(outcomes, results, true);
      CountSplits(outcomes, results, false);
      dispatched := dispatched + CountOf(results, true);
      failed := failed + CountOf(results, false);
      attempts, outcomes := attempts + tried, outcomes + results;
      if i + BATCH_SIZE < |connections| {
        pauses := pauses + 1;
      }
      i := i + BATCH_SIZE;
    }
    CountsComplete(outcomes);
    SentIsSize(attempts, outcomes, queue);
    forall k | 0 <= k < |connections| ensures IsJobFor(attempts[k], connections[k], today) { DispatchIsJob(connections[k], today); }
  }

  // ---------- fairness ----------

  /** The order of `lastSyncAt ASC`, with never-synced connections first or last. */
  predicate Before(a: Option<int>, b: Option<int>, nullsFirst: bool) {
    if a.Some? && b.Some? then a.value < b.value
    else if nullsFirst then a.None? && b.Some?
    else a.Some? && b.None?
  }

  /** The eligible connections and when each was last synced. */
  type Fleet = map<string, Option<int>>

  /** A correct answer to the query: the first `cap` connections of the order, ties in any order. */
  ghost predicate Selects(s: Fleet, sel: set<string>, cap: nat, nullsFirst: bool) {
    sel <= s.Keys && |sel| == (if |s.Keys| < cap then |s.Keys| else cap)
    && forall c, d :: c in sel && d in s.Keys && d !in sel ==> !Before(s[d], s[c], nullsFirst)
  }

  /**
   One cycle: the connections not dispatched are as before; each dispatched one has left, or ends the
   cycle synced later than every connection that was not dispatched.
   */
  ghost predicate Cycle(s: Fleet, sel: set<string>, t: Fleet, cap: nat, nullsFirst: bool) {
    Selects(s, sel, cap, nullsFirst) && t.Keys <= s.Keys
    && (forall d :: d in t && d !in sel ==> t[d] == s[d])
    && (forall c :: c in t && c in sel ==> t[c].Some?)
    && forall c, d :: c in t && c in sel && d in t && d !in sel && t[d].Some? ==> t[c].Some? && t[d].value < t[c].value
  }

  ghost predicate Cycles(ss: seq<Fleet>, sels: seq<set<string>>, cap: nat, nullsFirst: bool) {
    |ss| == |sels| + 1
    && forall i, j :: 0 <= i < |sels| && j == i + 1 ==> Cycle(ss[i], sels[i], ss[j], cap, nullsFirst)
  }

  /** Those that may be taken before c. */
  ghost function Ahead(s: Fleet, c: string, nullsFirst: bool): set<string>
    requires c in s
  {
    set d | d in s && d != c && !Before(s[c], s[d], nullsFirst)
  }

  ghost predicate AllSynced(s: Fleet) { forall c :: c in s ==> s[c].Some? }

  /** A cycle that passes c over takes `cap` connections out of those ahead of it, and puts none back. */
  lemma PassedOver(s: Fleet, sel: set<string>, t: Fleet, cap: nat, nullsFirst: bool, c: string)
    requires Cycle(s, sel, t, cap, nullsFirst) && c in t && c !in sel
    requires nullsFirst || AllSynced(s)
    ensures |Ahead(t, c, nullsFirst)| + cap <= |Ahead(s, c, nullsFirst)|
    ensures AllSynced(s) ==> AllSynced(t)
  {
    if |sel| == |s.Keys| {
      SubsetSize(sel + {c}, s.Keys);
      assert false;
    }
    var before, after := Ahead(s, c, nullsFirst), Ahead(t, c, nullsFirst);
    assert sel <= before;
    assert after <= before;
    assert after * sel == {};
    SubsetSize(after + sel, before);
  }

  lemma {:induction false} AheadShrinks(ss: seq<Fleet>, sels: seq<set<string>>, cap: nat, nullsFirst: bool, c: string, n: nat)
    requires Cycles(ss, sels, cap, nullsFirst) && n <= |sels|
    requires nullsFirst || AllSynced(ss[0])
    requires forall i :: 0 <= i <= n ==> c in ss[i]
    requires forall i :: 0 <= i < n ==> c !in sels[i]
    ensures |Ahead(ss[n], c, nullsFirst)| + n * cap <= |Ahead(ss[0], c, nullsFirst)|
    ensures nullsFirst || AllSynced(ss[n])
  {
    hide Cycle, Ahead, AllSynced;
    if n > 0 {
      var m := n - 1;
      AheadShrinks(ss, sels, cap, nullsFirst, c, m);
      assert Cycle(ss[m], sels[m], ss[n], cap, nullsFirst);
      PassedOver(ss[m], sels[m], ss[n], cap, nullsFirst, c);
      assert n * cap == m * cap + cap;
    }
  }

  /**
   No starvation: with never-synced connections first, a connection that stays is taken within any
   ceil(N / cap) cycles, N being how many there are at their start; with them last, when all have been
   synced. FairExactly says what else is fair.
   */
  lemma NoStarvation(ss: seq<Fleet>, sels: seq<set<string>>, cap: nat, nullsFirst: bool, c: string)
    requires Cycles(ss, sels, cap, nullsFirst)
    requires nullsFirst || AllSynced(ss[0])
    requires |sels| * cap >= |ss[0].Keys|
    requires forall i :: 0 <= i < |ss| ==> c in ss[i]
    ensures exists i :: 0 <= i < |sels| && c in sels[i]
  {
    if forall i :: 0 <= i < |sels| ==> c !in sels[i] {
      AheadShrinks(ss, sels, cap, nullsFirst, c, |sels|);
      var ahead := Ahead(ss[0], c, nullsFirst);
      assert c !in ahead && ahead + {c} <= ss[0].Keys;
      SubsetSize(ahead + {c}, ss[0].Keys);
    }
  }

  ghost function Synced(s: Fleet): set<string> { set c | c in s && s[c].Some? }

  /**
   PostgreSQL sorts nulls last in ascending order, and the query does not ask otherwise. Then a
   never-synced connection is passed over for ever as soon as a full cycle of connections has been
   synced, for as long as none of them leaves.
   */
  lemma {:induction false} NullsLastStarves(ss: seq<Fleet>, sels: seq<set<string>>, cap: nat, c: string, n: nat)
    requires Cycles(ss, sels, cap, false) && n <= |sels|
    requires forall i :: 0 <= i < |ss| ==> ss[i].Keys == ss[0].Keys
    requires c in ss[0] && ss[0][c].None? && |Synced(ss[0])| >= cap
    ensures ss[n][c].None? && |Synced(ss[n])| >= cap
    ensures forall i :: 0 <= i < n ==> c !in sels[i]
  {
    if n > 0 {
      var m := n - 1;
      NullsLastStarves(ss, sels, cap, c, m);
      assert Cycle(ss[m], sels[m], ss[n], cap, false);
      SyncedFirst(ss[m], sels[m], cap, c);
      StillSynced(ss[m], sels[m], ss[n], cap);
    }
  }

  lemma SyncedFirst(s: Fleet, sel: set<string>, cap: nat, c: string)
    requires Selects(s, sel, cap, false) && c in s && s[c].None? && |Synced(s)| >= cap
    ensures c !in sel
  {
    if c in sel {
      assert Synced(s) <= sel - {c} by {
        forall d | d in Synced(s) ensures d in sel { assert Before(s[d], s[c], false); }
      }
      SubsetSize(Synced(s), sel - {c});
    }
  }

  lemma StillSynced(s: Fleet, sel: set<string>, t: Fleet, cap: nat)
    requires Cycle(s, sel, t, cap, false) && t.Keys == s.Keys
    ensures |Synced(s)| <= |Synced(t)|
  {
    assert Synced(s) <= Synced(t);
    SubsetSize(Synced(s), Synced(t));
  }

  // ---------- exactly when the queue is fair ----------

  /** A run of cycles from s, long enough for everyone to have had a turn. */
  ghost predicate Schedule(s: Fleet, ss: seq<Fleet>, sels: seq<set<string>>, cap: nat, nullsFirst: bool) {
    Cycles(ss, sels, cap, nullsFirst) && ss[0] == s && |sels| * cap >= |s.Keys|
  }

  ghost predicate Stays(ss: seq<Fleet>, c: string) { forall i :: 0 <= i < |ss| ==> c in ss[i] }

  ghost predicate Taken(sels: seq<set<string>>, c: string) { exists i :: 0 <= i < |sels| && c in sels[i] }

  /** Every connection that stays is taken, in every such run. */
  ghost predicate Fair(s: Fleet, cap: nat, nullsFirst: bool) {
    forall ss, sels, c :: Schedule(s, ss, sels, cap, nullsFirst) && Stays(ss, c) ==> Taken(sels, c)
  }

  /**
   With never-synced connections first the queue is always fair. In the order of the query, which has
   them last, it is fair exactly when all have been synced or one cycle takes them all.
   */
  lemma FairExactly(s: Fleet, cap: nat)
    requires cap > 0
    ensures Fair(s, cap, true)
    ensures Fair(s, cap, false) <==> AllSynced(s) || |s.Keys| <= cap
  {
    hide Cycles, AllSynced, Taken, Stays;
    forall ss, sels, c | Schedule(s, ss, sels, cap, true) && Stays(ss, c) ensures Taken(sels, c) {
      TakenFromFair(ss, sels, cap, true, c);
    }
    if AllSynced(s) || |s.Keys| <= cap {
      forall ss, sels, c | Schedule(s, ss, sels, cap, false) && Stays(ss, c) ensures Taken(sels, c) {
        if AllSynced(s) { TakenFromFair(ss, sels, cap, false, c); } else { SmallFleet(ss, sels, cap, false, c); }
      }
    } else {
      var c := Unsynced(s);
      Starving(s, cap, c, |s.Keys|);
      var ss, sels :| Cycles(ss, sels, cap, false) && |sels| == |s.Keys| && |ss| > 0 && ss[0] == s && Stays(ss, c) && !Taken(sels, c);
      EnoughCycles(|s.Keys|, cap);
      assert Schedule(s, ss, sels, cap, false);
    }
  }

  /** ceil(n / 500) cycles. */
  function CyclesFor(n: nat): nat { (n + 499) / 500 }

  /** A run from s of that many cycles, under the cap of the code. */
  ghost predicate Round(s: Fleet, ss: seq<Fleet>, sels: seq<set<string>>, nullsFirst: bool) {
    Cycles(ss, sels, MAX_JOBS_PER_CYCLE, nullsFirst) && ss[0] == s && |sels| == CyclesFor(|s.Keys|)
  }

  /** Everyone that stays has a turn in every such round. */
  ghost predicate AllWithinCeiling(s: Fleet, nullsFirst: bool) {
    forall ss, sels, c :: Round(s, ss, sels, nullsFirst) && Stays(ss, c) ==> Taken(sels, c)
  }

  /** The bound for the code: always with never-synced connections first, and in the order of the query as in FairExactly. */
  lemma WithinCeilingExactly(s: Fleet)
    ensures AllWithinCeiling(s, true)
    ensures AllWithinCeiling(s, false) <==> AllSynced(s) || |s.Keys| <= 500
  {
    hide Cycles, AllSynced, Taken, Stays;
    var n := CyclesFor(|s.Keys|);
    forall ss, sels, c | Round(s, ss, sels, true) && Stays(ss, c) ensures Taken(sels, c) {
      TakenFromFair(ss, sels, MAX_JOBS_PER_CYCLE, true, c);
    }
    if AllSynced(s) || |s.Keys| <= MAX_JOBS_PER_CYCLE {
      forall ss, sels, c | Round(s, ss, sels, false) && Stays(ss, c) ensures Taken(sels, c) {
        if AllSynced(s) { TakenFromFair(ss, sels, MAX_JOBS_PER_CYCLE, false, c); }
        else { SmallFleet(ss, sels, MAX_JOBS_PER_CYCLE, false, c); }
      }
    } else {
      var c := Unsynced(s);
      Starving(s, MAX_JOBS_PER_CYCLE, c, n);
      var ss, sels :| Cycles(ss, sels, MAX_JOBS_PER_CYCLE, false) && |sels| == n && |ss| > 0 && ss[0] == s && Stays(ss, c)
                      && !Taken(sels, c);
      assert Round(s, ss, sels, false);
    }
  }

  lemma EnoughCycles(n: nat, cap: nat)
    requires cap > 0
    ensures n * cap >= n
  {
  }

  lemma TakenFromFair(ss: seq<Fleet>, sels: seq<set<string>>, cap: nat, nullsFirst: bool, c: string)
    requires Cycles(ss, sels, cap, nullsFirst) && Stays(ss, c) && |sels| * cap >= |ss[0].Keys|
    requires nullsFirst || AllSynced(ss[0])
    ensures Taken(sels, c)
  {
    hide Cycles, AllSynced;
    NoStarvation(ss, sels, cap, nullsFirst, c);
  }

  /** A fleet no larger than the cap is taken whole by its first cycle. */
  lemma SmallFleet(ss: seq<Fleet>, sels: seq<set<string>>, cap: nat, nullsFirst: bool, c: string)
    requires Cycles(ss, sels, cap, nullsFirst) && Stays(ss, c)
    requires |ss[0].Keys| <= cap && |sels| * cap >= |ss[0].Keys|
    ensures Taken(sels, c)
  {
    assert c in ss[0].Keys;
    if |sels| > 0 {
      assert Cycle(ss[0], sels[0], ss[1], cap, nullsFirst);
      if c !in sels[0] {
        SubsetSize(sels[0] + {c}, ss[0].Keys);
        assert false;
      }
    }
  }

  ghost function Unsynced(s: Fleet): (c: string)
    requires !AllSynced(s)
    ensures c in s && s[c].None?
  {
    var c :| c in s && s[c].None?; c
  }

  // ---------- a schedule that starves ----------

  lemma {:induction false} FirstOf(s: Fleet, keys: set<string>, nullsFirst: bool) returns (m: string)
    requires keys <= s.Keys && keys != {}
    ensures m in keys && forall d :: d in keys ==> !Before(s[d], s[m], nullsFirst)
    decreases |keys|
  {
    m :| m in keys;
    var rest := keys - {m};
    if rest != {} {
      var k := FirstOf(s, rest, nullsFirst);
      if Before(s[k], s[m], nullsFirst) { m := k; }
    }
  }

  /** The query always has an answer. */
  lemma {:induction false} SelectionExists(s: Fleet, cap: nat, nullsFirst: bool) returns (sel: set<string>)
    ensures Selects(s, sel, cap, nullsFirst)
    decreases cap
  {
    if cap == 0 {
      sel := {};
    } else {
      sel := SelectionExists(s, cap - 1, nullsFirst);
      var rest := s.Keys - sel;
      if rest == {} {
        forall k | k in s.Keys ensures k in sel { assert k !in rest; }
        assert sel == s.Keys;
      } else {
        assert s.Keys == sel + rest && sel * rest == {};
        assert |s.Keys| == |sel| + |rest|;
        var m := FirstOf(s, rest, nullsFirst);
        sel := sel + {m};
      }
    }
  }

  /** Never-synced connections are interchangeable at the end, so any one of them can be left out. */
  lemma SelectionWithout(s: Fleet, cap: nat, c: string) returns (sel: set<string>)
    requires c in s && s[c].None? && |s.Keys| > cap
    ensures Selects(s, sel, cap, false) && c !in sel
  {
    var others := s - {c};
    assert others.Keys == s.Keys - {c};
    sel := SelectionExists(others, cap, false);
  }

  lemma {:induction false} LaterThan(s: Fleet, keys: set<string>) returns (t: int)
    requires keys <= s.Keys
    ensures forall k :: k in keys && s[k].Some? ==> s[k].value < t
    decreases |keys|
  {
    if keys == {} {
      t := 0;
    } else {
      var k :| k in keys;
      t := LaterThan(s, keys - {k});
      if s[k].Some? && t <= s[k].value { t := s[k].value + 1; }
    }
  }

  /** A cycle whose connections all complete, later than anything before. */
  lemma OneCycle(s: Fleet, sel: set<string>, cap: nat) returns (t: Fleet)
    requires Selects(s, sel, cap, false)
    ensures Cycle(s, sel, t, cap, false) && t.Keys == s.Keys && forall c :: c in s && c !in sel ==> t[c] == s[c]
  {
    var now := LaterThan(s, s.Keys);
    t := map k | k in s :: if k in sel then Some(now) else s[k];
  }

  /** For every number of cycles there is a run of that length in which c stays and is never taken. */
  lemma {:induction false} Starving(s: Fleet, cap: nat, c: string, n: nat)
    requires c in s && s[c].None? && |s.Keys| > cap
    ensures exists ss, sels ::
              Cycles(ss, sels, cap, false) && |sels| == n && |ss| > 0 && ss[0] == s && Stays(ss, c) && !Taken(sels, c)
    decreases n
  {
    if n == 0 {
      var ss: seq<Fleet>, sels: seq<set<string>> := [s], [];
      assert Cycles(ss, sels, cap, false) && Stays(ss, c) && !Taken(sels, c);
    } else {
      var sel := SelectionWithout(s, cap, c);
      var t := OneCycle(s, sel, cap);
      Starving(t, cap, c, n - 1);
      var ts, tsels :| Cycles(ts, tsels, cap, false) && |tsels| == n - 1 && ts[0] == t && Stays(ts, c) && !Taken(tsels, c);
      OneCycleMore(s, sel, ts, tsels, cap, c);
      assert |[sel] + tsels| == n && ([s] + ts)[0] == s;
    }
  }

  lemma OneCycleMore(s: Fleet, sel: set<string>, ts: seq<Fleet>, tsels: seq<set<string>>, cap: nat, c: string)
    requires Cycles(ts, tsels, cap, false) && Cycle(s, sel, ts[0], cap, false)
    requires c in s && Stays(ts, c) && c !in sel && !Taken(tsels, c)
    ensures Cycles([s] + ts, [sel] + tsels, cap, false) && Stays([s] + ts, c) && !Taken([sel] + tsels, c)
  {
    hide Cycle;
    var ss, sels := [s] + ts, [sel] + tsels;
    forall i, j | 0 <= i < |sels| && j == i + 1 ensures Cycle(ss[i], sels[i], ss[j], cap, false) {
      if i > 0 { assert Cycle(ts[i - 1], tsels[i - 1], ts[j - 1], cap, false); }
    }
    forall i | 0 <= i < |sels| ensures c !in sels[i] {
      if i > 0 { assert c !in tsels[i - 1]; }
    }
  }
}
