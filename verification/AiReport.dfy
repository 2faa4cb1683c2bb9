/**
 The generated summary and the rendered PDF of a report, kept on the report's row while other requests
 change the report. A generation or a rendering reads the row, works for a while and writes its result
 back, the summary under the version that was read; an update reads the version and writes the row.
 */
module AiReport {
  import opened Options

  const CACHE_WINDOW := 24 * 3_600_000
  const MIN_SUMMARY := 50

  type Sections = string

  datatype Summary = Summary(text: string, model: string, generatedAt: int, version: int)

  datatype Row = Row(name: string, sections: Sections, version: int, pdfUrl: Option<string>, summary: Option<Summary>)

  predicate CacheValid(r: Row, at: int, force: bool) {
    !force && r.summary.Some? && r.summary.value.text != "" && r.summary.value.version == r.version
    && at - r.summary.value.generatedAt < CACHE_WINDOW
  }

  function Updated(r: Row, read: int, name: Option<string>, sections: Option<Sections>): Row {
    var named := r.(name := name.GetOr(r.name));
    if sections.Some? then named.(sections := sections.value, version := read + 1, pdfUrl := None) else named
  }

  function Summarised(r: Row, text: string, model: string, now: int, version: int): Row {
    r.(summary := Some(Summary(text, model, now, version)))
  }

  // ---------- the row ----------

  datatype Error = Unavailable

  /** The stored report. Each method is one or two of the awaited statements of the services. */
  class Report {
    var row: Row

    constructor (name: string, sections: Sections)
      ensures row == Row(name, sections, 1, None, None)
    {
      row := Row(name, sections, 1, None, None);
    }

    /** The read of generateSummary with its cache check: the cached summary, or the row to work from. */
    method ReadForSummary(at: int, force: bool) returns (hit: Option<Summary>, snapshot: Row)
      ensures snapshot == row
      ensures hit == if CacheValid(row, at, force) then row.summary else None
    {
      snapshot := row;
      hit := None;
      if !force && row.summary.Some? {
        var s := row.summary.value;
        if s.text != "" && s.version == row.version && at - s.generatedAt < CACHE_WINDOW {
          hit := row.summary;
        }
      }
    }

    /** The write of generateSummary, under the version that was read. */
    method WriteSummary(snapshot: Row, text: string, model: string, now: int) returns (r: Result<Summary, Error>)
      modifies this
      ensures r.Ok? <==> |text| >= MIN_SUMMARY
      ensures row == if r.Ok? then Summarised(old(row), text, model, now, snapshot.version) else old(row)
      ensures r.Ok? ==> row == old(row).(summary := Some(r.value)) && r.value == Summary(text, model, now, snapshot.version)
    {
      if text == "" || |text| < MIN_SUMMARY {
        return Err(Unavailable);
      }
      var s := Summary(text, model, now, snapshot.version);
      row := row.(summary := Some(s));
      return Ok(s);
    }

    /** The write of update, from the version it read before. */
    method WriteUpdate(read: int, name: Option<string>, sections: Option<Sections>)
      modifies this
      ensures row == Updated(old(row), read, name, sections)
      ensures row.name == (if name.Some? then name.value else old(row.name)) && row.summary == old(row.summary)
      ensures if sections.Some? then row.sections == sections.value && row.version == read + 1 && row.pdfUrl == None
              else row == old(row).(name := row.name)
    {
      if name.Some? {
        row := row.(name := name.value);
      }
      if sections.Some? {
        row := row.(sections := sections.value, version := read + 1);
        row := row.(pdfUrl := None);
      }
    }

    /** The write of renderAndStore. */
    method WritePdf(url: string)
      modifies this
      ensures row == old(row).(pdfUrl := Some(url))
    {
      row := row.(pdfUrl := Some(url));
    }
  }

  // ---------- requests interleaved ----------

  /**
   readers: what the summary requests in flight have read; updaters: the version each update in flight has
   read; renders: the sections each rendering in flight has read. at: the sections each version stood for;
   basis and drawn: the sections that the stored summary and the stored PDF were made from. The program
   keeps none of the last three.
   */
  datatype State = State(
    row: Row, readers: map<nat, Row>, updaters: map<nat, int>, renders: map<nat, Sections>,
    at: map<int, Sections>, basis: Sections, drawn: Sections)

  datatype Event =
    | Generate(id: nat, now: int, force: bool)
    | Finish(id: nat, text: string, model: string, now: int)
    | UpdateRead(id: nat)
    | UpdateWrite(id: nat, name: Option<string>, sections: Option<Sections>)
    | RenderRead(id: nat)
    | RenderWrite(id: nat, url: string)

  function Start(name: string, sections: Sections): State {
    State(Row(name, sections, 1, None, None), map[], map[], map[], map[1 := sections], sections, sections)
  }

  function Step(s: State, e: Event): State {
    match e
    case Generate(id, now, force) =>
      if CacheValid(s.row, now, force) then s else s.(readers := s.readers[id := s.row])
    case Finish(id, text, model, now) =>
      if id !in s.readers then s
      else if |text| < MIN_SUMMARY then s.(readers := s.readers - {id})
      else s.(row := Summarised(s.row, text, model, now, s.readers[id].version), readers := s.readers - {id},
              basis := s.readers[id].sections)
    case UpdateRead(id) => s.(updaters := s.updaters[id := s.row.version])
    case UpdateWrite(id, name, sections) =>
      if id !in s.updaters then s else
      var row := Updated(s.row, s.updaters[id], name, sections);
      s.(row := row, updaters := s.updaters - {id}, at := s.at[row.version := row.sections])
    case RenderRead(id) => s.(renders := s.renders[id := s.row.sections])
    case RenderWrite(id, url) =>
      if id !in s.renders then s
      else s.(row := s.row.(pdfUrl := Some(url)), renders := s.renders - {id}, drawn := s.renders[id])
  }

  function Run(s: State, es: seq<Event>): State
    decreases |es|
  {
    if es == [] then s else Run(Step(s, es[0]), es[1..])
  }

  /** Changes of the sections do not overlap: each is written over the version it read. */
  predicate Apart(s: State, es: seq<Event>)
    decreases |es|
  {
    es == [] || ((es[0].UpdateWrite? && es[0].sections.Some? && es[0].id in s.updaters ==>
                    s.updaters[es[0].id] == s.row.version)
                 && Apart(Step(s, es[0]), es[1..]))
  }

  ghost predicate Inv(s: State) {
    s.row.version in s.at && s.at[s.row.version] == s.row.sections
    && (forall id :: id in s.readers ==> Held(s, s.readers[id].version, s.readers[id].sections))
    && (s.row.summary.Some? ==> Held(s, s.row.summary.value.version, s.basis) && |s.row.summary.value.text| >= MIN_SUMMARY)
  }

  /** Sections read under a version that is not newer than the row's, and is what it stood for. */
  predicate Held(s: State, version: int, sections: Sections) {
    version <= s.row.version && version in s.at && s.at[version] == sections
  }

  lemma StepInv(s: State, e: Event)
    requires Inv(s) && Apart(s, [e])
    ensures Inv(Step(s, e))
  {
  }

  lemma {:induction false} RunInv(s: State, es: seq<Event>)
    requires Inv(s) && Apart(s, es)
    ensures Inv(Run(s, es))
    decreases |es|
  {
    if es != [] {
      assert [es[0]][1..] == [];
      StepInv(s, es[0]);
      RunInv(Step(s, es[0]), es[1..]);
    }
  }

  /**
   Whenever the cache check accepts, the stored summary was generated from the sections the report has
   now, less than 24 hours ago: however requests are interleaved, as long as changes of the sections do
   not overlap.
   */
  lemma AcceptedIsCurrent(name: string, sections: Sections, es: seq<Event>, now: int, force: bool)
    requires Apart(Start(name, sections), es)
    ensures var s := Run(Start(name, sections), es);
            CacheValid(s.row, now, force) ==>
            s.basis == s.row.sections && now - s.row.summary.value.generatedAt < CACHE_WINDOW && !force
  {
    RunInv(Start(name, sections), es);
  }

  /**
   Without that proviso it fails: two changes that read the same version write the same next version, and
   a summary of the first is accepted for the second.
   */
  lemma OverlapServesStale(text: string)
    requires |text| >= MIN_SUMMARY
    ensures var s := Run(Start("r", "a"), [UpdateRead(1), UpdateRead(2), UpdateWrite(1, None, Some("b")), Generate(3, 0, false),
                                            Finish(3, text, "m", 0), UpdateWrite(2, None, Some("c"))]);
            CacheValid(s.row, 1, false) && s.row.sections == "c" && s.basis == "b"
  {
    var s1 := Step(Step(Start("r", "a"), UpdateRead(1)), UpdateRead(2));
    var s2 := Step(s1, UpdateWrite(1, None, Some("b")));
    var s3 := Step(s2, Generate(3, 0, false));
    var s4 := Step(s3, Finish(3, text, "m", 0));
    var s5 := Step(s4, UpdateWrite(2, None, Some("c")));
    assert s5.row.sections == "c" && s5.basis == "b" && CacheValid(s5.row, 1, false);
    assert Run(s5, []) == s5;
    assert Run(s4, [UpdateWrite(2, None, Some("c"))]) == s5;
    assert Run(s3, [Finish(3, text, "m", 0), UpdateWrite(2, None, Some("c"))]) == s5;
    assert Run(s2, [Generate(3, 0, false), Finish(3, text, "m", 0), UpdateWrite(2, None, Some("c"))]) == s5;
    assert Run(s1, [UpdateWrite(1, None, Some("b")), Generate(3, 0, false), Finish(3, text, "m", 0),
                    UpdateWrite(2, None, Some("c"))]) == s5;
  }

  // ---------- exactly when an overlap does harm ----------

  /** A stale summary is accepted at some time. */
  ghost predicate AcceptsStale(s: State, now: int) { CacheValid(s.row, now, false) && s.basis != s.row.sections }

  /** Some way to go on, with no further overlap, accepts a stale summary. */
  ghost predicate CanGoStale(s: State) { exists es, now :: Apart(s, es) && AcceptsStale(Run(s, es), now) }

  /** Read under a version that a write over version `read` will reach again with other sections. */
  predicate Ahead(version: int, held: Sections, read: int, sections: Sections) {
    version > read + 1 || (version == read + 1 && held != sections)
  }

  /** The stored summary, or a request in flight, is ahead in this sense. */
  ghost predicate HeldAhead(s: State, read: int, sections: Sections) {
    (s.row.summary.Some? && Ahead(s.row.summary.value.version, s.basis, read, sections))
    || exists id :: id in s.readers && Ahead(s.readers[id].version, s.readers[id].sections, read, sections)
  }

  /**
   A change of the sections that read version v is written after another change overtook it. It leads to
   a stale summary exactly when the stored summary, or a request in flight, was read under a version
   beyond v + 1, or under v + 1 from other sections than those now written.
   */
  lemma OverlapExactly(s: State, id: nat, name: Option<string>, sections: Sections)
    requires Inv(s) && id in s.updaters && s.updaters[id] < s.row.version
    ensures CanGoStale(Step(s, UpdateWrite(id, name, Some(sections)))) <==> HeldAhead(s, s.updaters[id], sections)
  {
    hide Run, Apart, Inv;
    var t := Step(s, UpdateWrite(id, name, Some(sections)));
    if HeldAhead(s, s.updaters[id], sections) {
      HarmFound(s, id, name, sections);
    } else {
      StillInv(s, id, name, sections);
      forall es, now | Apart(t, es) ensures !AcceptsStale(Run(t, es), now) {
        RunInv(t, es);
        InvNotStale(Run(t, es), now);
      }
    }
  }

  lemma InvNotStale(s: State, now: int)
    requires Inv(s)
    ensures !AcceptsStale(s, now)
  {
  }

  lemma StillInv(s: State, id: nat, name: Option<string>, sections: Sections)
    requires Inv(s) && id in s.updaters && s.updaters[id] < s.row.version && !HeldAhead(s, s.updaters[id], sections)
    ensures Inv(Step(s, UpdateWrite(id, name, Some(sections))))
  {
    var t := Step(s, UpdateWrite(id, name, Some(sections)));
    forall r | r in t.readers ensures Held(t, t.readers[r].version, t.readers[r].sections) {
      assert Held(s, s.readers[r].version, s.readers[r].sections);
    }
  }

  /** k changes of the sections, one after the other. */
  function Changes(k: nat, sections: Sections): seq<Event> {
    if k == 0 then [] else [UpdateRead(0), UpdateWrite(0, None, Some(sections))] + Changes(k - 1, sections)
  }

  lemma {:induction false} ChangesRun(s: State, k: nat, sections: Sections)
    ensures Apart(s, Changes(k, sections))
    ensures var z := Run(s, Changes(k, sections));
            z.row.version == s.row.version + k && (z.row.sections == if k > 0 then sections else s.row.sections)
            && z.row.summary == s.row.summary && z.readers == s.readers && z.basis == s.basis
    decreases k
  {
    if k > 0 {
      var es := Changes(k, sections);
      var s1 := Step(s, UpdateRead(0));
      var s2 := Step(s1, UpdateWrite(0, None, Some(sections)));
      ChangesRun(s2, k - 1, sections);
      assert es[1..][0] == UpdateWrite(0, None, Some(sections)) && es[1..][1..] == Changes(k - 1, sections);
      assert Run(s1, es[1..]) == Run(s2, Changes(k - 1, sections));
      assert Apart(s1, es[1..]);
    }
  }

  lemma {:induction false} OneMore(s: State, es: seq<Event>, e: Event)
    requires Apart(s, es) && !e.UpdateWrite?
    ensures Apart(s, es + [e]) && Run(s, es + [e]) == Step(Run(s, es), e)
    decreases |es|
  {
    hide Step;
    if es == [] {
      assert es + [e] == [e] && [e][1..] == [];
      assert Run(Step(s, e), []) == Step(s, e) && Apart(Step(s, e), []);
    } else {
      assert (es + [e])[1..] == es[1..] + [e];
      OneMore(Step(s, es[0]), es[1..], e);
    }
  }

  lemma HarmFound(s: State, id: nat, name: Option<string>, sections: Sections)
    requires Inv(s) && id in s.updaters && s.updaters[id] < s.row.version && HeldAhead(s, s.updaters[id], sections)
    ensures CanGoStale(Step(s, UpdateWrite(id, name, Some(sections))))
  {
    hide Run, Apart, Changes;
    var v, t := s.updaters[id], Step(s, UpdateWrite(id, name, Some(sections)));
    if s.row.summary.Some? && Ahead(s.row.summary.value.version, s.basis, v, sections) {
      var k: nat := s.row.summary.value.version - (v + 1);
      var es := Changes(k, s.basis + "!");
      ChangesRun(t, k, s.basis + "!");
      Longer(s.basis);
      assert AcceptsStale(Run(t, es), s.row.summary.value.generatedAt);
    } else {
      var r :| r in s.readers && Ahead(s.readers[r].version, s.readers[r].sections, v, sections);
      var held := s.readers[r];
      var k: nat := held.version - (v + 1);
      var text := seq(MIN_SUMMARY, i => 'x');
      var es := Changes(k, held.sections + "!");
      ChangesRun(t, k, held.sections + "!");
      Longer(held.sections);
      OneMore(t, es, Finish(r, text, "", 0));
      assert AcceptsStale(Run(t, es + [Finish(r, text, "", 0)]), 0);
    }
  }

  lemma Longer(s: string)
    ensures s + "!" != s
  {
    assert |s + "!"| == |s| + 1;
  }

  // ---------- how long a summary is served ----------

  /** The event stores no summary and changes no sections. */
  predicate LeavesSummary(e: Event) { !e.Finish? && !(e.UpdateWrite? && e.sections.Some?) }

  lemma {:induction false} SummaryStays(s: State, es: seq<Event>)
    requires forall e :: e in es ==> LeavesSummary(e)
    ensures Run(s, es).row.summary == s.row.summary && Run(s, es).row.version == s.row.version
    decreases |es|
  {
    if es != [] {
      assert es[0] in es && forall e :: e in es[1..] ==> e in es;
      SummaryStays(Step(s, es[0]), es[1..]);
    }
  }

  /** A summary of at least fifty characters, stored for the version the report still has, is served for 24 hours. */
  lemma ServedForADay(s: State, e: Event, es: seq<Event>, now: int, force: bool)
    requires e.Finish? && e.id in s.readers && s.readers[e.id].version == s.row.version && |e.text| >= 50
    requires forall x :: x in es ==> LeavesSummary(x)
    ensures var z := Run(Step(s, e), es);
            z.row.summary == Some(Summary(e.text, e.model, e.now, s.row.version))
            && (CacheValid(z.row, now, force) <==> !force && now - e.now < 24 * 60 * 60 * 1000)
  {
    hide Run;
    SummaryStays(Step(s, e), es);
  }

  // ---------- the PDF ----------

  /** The stored PDF shows other sections than the report has. */
  predicate PdfStale(s: State) { s.row.pdfUrl.Some? && s.drawn != s.row.sections }

  /** A rendering ends that read other sections than the report has by then. */
  predicate Overtaken(s: State, e: Event) { e.RenderWrite? && e.id in s.renders && s.renders[e.id] != s.row.sections }

  /** A change of the sections removes the PDF, so a stale one comes from an overtaken rendering alone. */
  lemma PdfStep(s: State, e: Event)
    requires !PdfStale(s)
    ensures PdfStale(Step(s, e)) <==> Overtaken(s, e)
    ensures e.UpdateWrite? && e.id in s.updaters && e.sections.Some? ==> Step(s, e).row.pdfUrl == None
  {
  }

  ghost predicate NeverStale(s: State, es: seq<Event>)
    decreases |es|
  {
    !PdfStale(s) && (es == [] || NeverStale(Step(s, es[0]), es[1..]))
  }

  ghost predicate NeverOvertaken(s: State, es: seq<Event>)
    decreases |es|
  {
    es == [] || (!Overtaken(s, es[0]) && NeverOvertaken(Step(s, es[0]), es[1..]))
  }

  /** Over a run the PDF shows the sections the report has all along exactly when no rendering is overtaken by a change. */
  lemma {:induction false} PdfOverRuns(s: State, es: seq<Event>)
    requires !PdfStale(s)
    ensures NeverStale(s, es) <==> NeverOvertaken(s, es)
    decreases |es|
  {
    hide Step, PdfStale, Overtaken;
    if es != [] {
      PdfStep(s, es[0]);
      if !Overtaken(s, es[0]) {
        PdfOverRuns(Step(s, es[0]), es[1..]);
      } else {
        NotFromHere(Step(s, es[0]), es[1..]);
      }
    }
  }

  lemma NotFromHere(s: State, es: seq<Event>)
    requires PdfStale(s)
    ensures !NeverStale(s, es)
  {
  }

  /** The PDF of the old sections, stored after the change that should have removed it. */
  lemma OvertakenHappens(url: string)
    ensures var s := Run(Start("r", "a"), [RenderRead(1), UpdateRead(2), UpdateWrite(2, None, Some("b")), RenderWrite(1, url)]);
            s.row.pdfUrl == Some(url) && s.row.sections == "b" && s.drawn == "a"
  {
    var s1 := Step(Step(Start("r", "a"), RenderRead(1)), UpdateRead(2));
    var s2 := Step(s1, UpdateWrite(2, None, Some("b")));
    var s3 := Step(s2, RenderWrite(1, url));
    assert Run(s3, []) == s3;
    assert Run(s2, [RenderWrite(1, url)]) == s3;
    assert Run(s1, [UpdateWrite(2, None, Some("b")), RenderWrite(1, url)]) == s3;
  }
}
