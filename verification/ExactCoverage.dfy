/** Exactly when the watermark covers: a condition on single steps that holds along a run if and only
    if every own raw at or below the watermark was digested. */
module ExactCoverage {
  import opened Wrappers
  import opened Storage
  import opened RebuildSlots
  import opened CoordinatorModel
  import opened CoordinatorSafety
  import opened CoordinatorTheorems
  import InputBuilder

  /** The iteration has listed every own raw up to its start that no earlier iteration took in. */
  ghost predicate ListsAllOpen(s: Sys, p: Point)
    requires p.Synthesizing?
  {
    forall r :: r in s.raws && Mine(s, r) && r.createdAt <= p.startedAt && r.id !in s.absorbed ==>
                  r.id in RawIds(p.newRaws)
  }

  /** An own raw commits above the watermark, and a wiki is written only by an iteration that has
      listed everything still open. Speaks of the history; `Punctual` below does not. */
  ghost predicate Timely(s: Sys, e: Event)
    requires Enabled(s, e)
  {
    && (e.InsertRaw? && Mine(s, e.raw) ==> Watermark(s.wikis) < e.raw.createdAt)
    && (e.Upsert? ==> ListsAllOpen(s, PointOf(s, e.w)))
  }

  ghost predicate RunTimely(init: Sys, evs: seq<Event>)
    requires Run(init, evs).Some?
  {
    evs == [] ||
    (RunTimely(init, evs[..|evs| - 1]) && Timely(Run(init, evs[..|evs| - 1]).value, evs[|evs| - 1]))
  }

  // ----- absorbed raws are digested -----

  /** What an iteration took in was extracted, or the iteration was manual. */
  ghost predicate AbsorbedIsDigested(s: Sys)
  {
    s.absorbed <= s.extracted + s.viaManual
  }

  lemma DigestedByUpsert(s: Sys, e: Event)
    requires Safe(s) && Enabled(s, e) && e.Upsert? && AbsorbedIsDigested(s)
    ensures AbsorbedIsDigested(Apply(s, e))
  {
    assert PhaseOk(s, s.workers[e.w].phase);
  }

  lemma {:induction false} DigestedRun(init: Sys, evs: seq<Event>)
    requires Initial(init) && Run(init, evs).Some?
    ensures AbsorbedIsDigested(Run(init, evs).value)
  {
    if evs == [] {
    } else {
      var n := |evs| - 1;
      var s := Run(init, evs[..n]).value;
      DigestedRun(init, evs[..n]);
      RunIsSafe(init, evs[..n]);
      if evs[n].Upsert? { DigestedByUpsert(s, evs[n]); } else { StepGrows(s, evs[n]); }
    }
  }

  // ----- one step -----

  ghost predicate AllAbsorbed(s: Sys)
  {
    forall r :: r in s.raws && Mine(s, r) && r.createdAt <= Watermark(s.wikis) ==> r.id in s.absorbed
  }

  lemma UpsertKeeps(s: Sys, e: Event)
    requires Safe(s) && Enabled(s, e) && e.Upsert? && ListsAllOpen(s, PointOf(s, e.w))
    ensures AllAbsorbed(Apply(s, e))
  {
    var t, p := Apply(s, e), PointOf(s, e.w);
    assert PhaseOk(s, s.workers[e.w].phase);
    UpsertWatermark(s, e.w, e.c, e.content, e.refs);
    StepGrows(s, e);
    forall r | r in t.raws && Mine(t, r) && r.createdAt <= Watermark(t.wikis) ensures r.id in t.absorbed {
      assert r.createdAt <= p.startedAt;
    }
  }

  lemma KeepStep(s: Sys, e: Event)
    requires Safe(s) && Enabled(s, e) && Timely(s, e) && AllAbsorbed(s)
    ensures AllAbsorbed(Apply(s, e))
  {
    StepGrows(s, e);
    if e.Upsert? { UpsertKeeps(s, e); }
  }

  lemma BreakStep(s: Sys, e: Event) returns (r: Raw)
    requires Safe(s) && Enabled(s, e) && !Timely(s, e)
    ensures Lost(Apply(s, e), r)
  {
    if e.InsertRaw? {
      LateCommitIsLost(s, e);
      r := e.raw;
    } else {
      var p := PointOf(s, e.w);
      r :| r in s.raws && Mine(s, r) && r.createdAt <= p.startedAt && r.id !in s.absorbed &&
           r.id !in RawIds(p.newRaws);
      OvertakenIsLost(s, e, r);
    }
  }

  // ----- all runs -----

  /** A run that was timely so far has absorbed everything; one that was not has lost a raw for good. */
  lemma {:induction false} TimelyOrLost(init: Sys, evs: seq<Event>)
    requires Initial(init) && Run(init, evs).Some?
    ensures RunTimely(init, evs) ==> AllAbsorbed(Run(init, evs).value)
    ensures !RunTimely(init, evs) ==> exists r :: Lost(Run(init, evs).value, r)
  {
    if evs == [] {
    } else {
      var n := |evs| - 1;
      var s := Run(init, evs[..n]).value;
      TimelyOrLost(init, evs[..n]);
      RunIsSafe(init, evs[..n]);
      if !RunTimely(init, evs[..n]) {
        var r :| Lost(s, r);
        LostStep(s, evs[n], r);
      } else if Timely(s, evs[n]) {
        KeepStep(s, evs[n]);
      } else {
        var r := BreakStep(s, evs[n]);
      }
    }
  }

  /** After any run, every own raw at or below the watermark is digested if and only if each step was
      timely: the step towards `CoverageIsPunctuality`. */
  lemma {:induction false} CoverageIsTimeliness(init: Sys, evs: seq<Event>)
    requires Initial(init) && Run(init, evs).Some?
    ensures Covered(Run(init, evs).value) <==> RunTimely(init, evs)
    ensures Covered(Run(init, evs).value) <==> AllAbsorbed(Run(init, evs).value)
  {
    TimelyOrLost(init, evs);
    DigestedRun(init, evs);
  }

  // ----- the condition without history -----

  /** Repeating the iteration's own `list_since` finds nothing it has not listed. */
  ghost predicate ListsItsWindow(s: Sys, p: Point)
    requires p.Synthesizing?
  {
    forall r :: r in ListSince(s.raws, Personal, s.owner, p.watermark, p.startedAt) ==> r.id in RawIds(p.newRaws)
  }

  /** An own raw commits above the watermark, and a wiki is written only while the iteration's window
      holds nothing new. Both are questions to the two tables, asked before the step. */
  ghost predicate Punctual(s: Sys, e: Event)
    requires Enabled(s, e)
  {
    && (e.InsertRaw? && Mine(s, e.raw) ==> Watermark(s.wikis) < e.raw.createdAt)
    && (e.Upsert? ==> ListsItsWindow(s, PointOf(s, e.w)))
  }

  ghost predicate RunPunctual(init: Sys, evs: seq<Event>)
    requires Run(init, evs).Some?
  {
    evs == [] ||
    (RunPunctual(init, evs[..|evs| - 1]) && Punctual(Run(init, evs[..|evs| - 1]).value, evs[|evs| - 1]))
  }

  /** An own raw of the listed window that some iteration took in is in the listing. */
  ghost predicate WindowHolds(s: Sys, w: WorkerId)
    requires HasListing(s, w)
  {
    var p := PointOf(s, w);
    forall r :: r in s.raws && Mine(s, r) && p.watermark < r.createdAt <= p.startedAt && r.id in s.absorbed ==>
                  r.id in RawIds(p.newRaws)
  }

  ghost predicate AllWindowsHold(s: Sys)
  {
    forall w :: HasListing(s, w) ==> WindowHolds(s, w)
  }

  /** The worker's own step: it lists its window, takes in its own listing, or goes on with it. */
  lemma OwnWindowHolds(s: Sys, e: Event)
    requires Safe(s) && Enabled(s, e) && Actor(e).Some? && HasListing(Apply(s, e), e.w)
    requires AllWindowsHold(s)
    ensures WindowHolds(Apply(s, e), e.w)
  {
    StepGrows(s, e);
    if e.ListRaws? {
      var p := PointOf(s, e.w);
      assert PointOf(Apply(s, e), e.w).newRaws == ListSince(s.raws, Personal, s.owner, p.watermark, p.startedAt);
    } else {
      ListingKept(s, e);
      assert WindowHolds(s, e.w);
    }
  }

  /** Other workers' steps leave it, for nobody else takes anything in while it is live. */
  lemma OtherWindowHolds(s: Sys, e: Event, w: WorkerId)
    requires Safe(s) && Enabled(s, e) && !e.InsertRaw? && Actor(e) != Some(w) && HasListing(Apply(s, e), w)
    requires AllWindowsHold(s)
    ensures WindowHolds(Apply(s, e), w)
  {
    ListingElsewhere(s, e, w);
    StepGrows(s, e);
    assert WindowHolds(s, w);
    assert Live(s.workers[w]);
    if Actor(e).Some? { ActorIsLive(s, e); }
  }

  /** A raw that commits has been taken in by nobody. */
  lemma CommitKeepsWindow(s: Sys, e: Event, w: WorkerId)
    requires Safe(s) && Enabled(s, e) && e.InsertRaw? && HasListing(s, w) && WindowHolds(s, w)
    ensures HasListing(Apply(s, e), w) && WindowHolds(Apply(s, e), w)
  {
    FreshIsUnlisted(s, e, w);
  }

  lemma WindowsStep(s: Sys, e: Event)
    requires Safe(s) && Enabled(s, e) && AllWindowsHold(s)
    ensures AllWindowsHold(Apply(s, e))
  {
    forall w: WorkerId | HasListing(Apply(s, e), w) ensures WindowHolds(Apply(s, e), w) {
      if e.InsertRaw? {
        assert Apply(s, e).workers == s.workers;
        CommitKeepsWindow(s, e, w);
      } else if Actor(e) == Some(w) {
        OwnWindowHolds(s, e);
      } else {
        OtherWindowHolds(s, e, w);
      }
    }
  }

  lemma {:induction false} WindowsRun(init: Sys, evs: seq<Event>)
    requires Initial(init) && Run(init, evs).Some?
    ensures AllWindowsHold(Run(init, evs).value)
  {
    if evs == [] {
    } else {
      var n := |evs| - 1;
      WindowsRun(init, evs[..n]);
      RunIsSafe(init, evs[..n]);
      WindowsStep(Run(init, evs[..n]).value, evs[n]);
    }
  }

  /** While everything is covered, a whole window and a listing of everything open are the same. */
  lemma PunctualIsTimely(s: Sys, e: Event)
    requires Safe(s) && Enabled(s, e) && AllAbsorbed(s) && AllWindowsHold(s)
    ensures Punctual(s, e) <==> Timely(s, e)
  {
    if e.Upsert? {
      var p := PointOf(s, e.w);
      assert PhaseOk(s, s.workers[e.w].phase);
      assert HasListing(s, e.w) && WindowHolds(s, e.w);
      WindowIsOpen(s, p);
    }
  }

  lemma WindowIsOpen(s: Sys, p: Point)
    requires p.Synthesizing? && AllAbsorbed(s)
    requires Watermark(s.wikis) == p.watermark || Watermark(s.wikis) == p.startedAt
    requires forall r :: r in s.raws && Mine(s, r) && p.watermark < r.createdAt <= p.startedAt && r.id in s.absorbed ==>
                           r.id in RawIds(p.newRaws)
    ensures ListsItsWindow(s, p) <==> ListsAllOpen(s, p)
  {
    var window := ListSince(s.raws, Personal, s.owner, p.watermark, p.startedAt);
    if ListsItsWindow(s, p) {
      forall r | r in s.raws && Mine(s, r) && r.createdAt <= p.startedAt && r.id !in s.absorbed
        ensures r.id in RawIds(p.newRaws)
      {
        assert r in window;
      }
    }
    if ListsAllOpen(s, p) {
      forall r | r in window ensures r.id in RawIds(p.newRaws) {
        assert r in s.raws && Mine(s, r);
      }
    }
  }

  lemma {:induction false} RunPunctualIsTimely(init: Sys, evs: seq<Event>)
    requires Initial(init) && Run(init, evs).Some?
    ensures RunPunctual(init, evs) <==> RunTimely(init, evs)
  {
    if evs == [] {
    } else {
      var n := |evs| - 1;
      RunPunctualIsTimely(init, evs[..n]);
      if RunTimely(init, evs[..n]) {
        RunIsSafe(init, evs[..n]);
        TimelyOrLost(init, evs[..n]);
        WindowsRun(init, evs[..n]);
        PunctualIsTimely(Run(init, evs[..n]).value, evs[n]);
      }
    }
  }

  /** The code covers exactly the punctual runs: after any run, every own raw at or below the watermark
      is digested if and only if no own raw committed at or below the watermark of its moment and no
      wiki was written while its iteration's window held a raw it had not listed. A run that is not
      punctual has lost a raw for good. */
  lemma {:induction false} CoverageIsPunctuality(init: Sys, evs: seq<Event>)
    requires Initial(init) && Run(init, evs).Some?
    ensures Covered(Run(init, evs).value) <==> RunPunctual(init, evs)
    ensures !RunPunctual(init, evs) ==> exists r :: Lost(Run(init, evs).value, r)
  {
    RunPunctualIsTimely(init, evs);
    CoverageIsTimeliness(init, evs);
    TimelyOrLost(init, evs);
  }

  /** The discipline on commits alone is enough. */
  lemma {:induction false} OnTimeIsPunctual(init: Sys, evs: seq<Event>)
    requires Initial(init) && Run(init, evs).Some? && RunOnTime(init, evs)
    ensures RunPunctual(init, evs) && RunTimely(init, evs)
  {
    CoverageInvariant(init, evs);
    CoverageIsTimeliness(init, evs);
    CoverageIsPunctuality(init, evs);
  }

  // ----- a run that loses a raw -----

  const OVERTAKEN := Raw("b", Personal, "u", "", 1)

  const EMPTY := Sys("u", 1, [], map[], DEFAULT_SLOT, map[], {}, {}, {}, [])

  /** The only worker inside its first iteration, a manual rebuild of one concept. */
  ghost function Inside(raws: seq<Raw>, p: Point): Sys
  {
    EMPTY.(raws := raws, slot := Slot(true, None, false),
           workers := map[0 := Worker(Session(Manual(Some("cc")), 1, p), 0, false)])
  }

  function Writing(task: Task): Point
  {
    Synthesizing(1, 0, [], map["cc" := task])
  }

  const CLAIMED :=
    EMPTY.(slot := Slot(true, None, false), workers := map[0 := Worker(Head(Manual(Some("cc"))), 0, false)])

  ghost predicate Leads(s: Sys, e: Event, t: Sys)
  {
    Enabled(s, e) && Apply(s, e) == t
  }

  lemma Claims()
    ensures Leads(EMPTY, RequestManual(0, Some("cc")), CLAIMED)
  {
    assert Ask(EMPTY, 0, Manual(Some("cc"))).workers == CLAIMED.workers;
  }

  lemma Begins()
    ensures Leads(CLAIMED, Begin(0), Inside([], Opening))
  {
    assert Apply(CLAIMED, Begin(0)).workers == Inside([], Opening).workers;
  }

  lemma Reads(raws: seq<Raw>, p: Point, e: Event)
    requires IsRead(e) && !e.Extract? && e.w == 0 && Enabled(Inside(raws, p), e)
    ensures Leads(Inside(raws, p), e, Inside(raws, AfterRead(Inside(raws, p), p)))
  {
    assert Apply(Inside(raws, p), e).workers == Inside(raws, AfterRead(Inside(raws, p), p)).workers;
  }

  lemma Commits()
    ensures Leads(Inside([], Listed(1, 0, [])), InsertRaw(OVERTAKEN), Inside([OVERTAKEN], Listed(1, 0, [])))
  {
    assert Insert([], OVERTAKEN) == [OVERTAKEN];
  }

  lemma Chooses()
    ensures Leads(Inside([OVERTAKEN], Surveyed(1, 0, [], {})), Choose(0), Inside([OVERTAKEN], Writing(Waiting)))
  {
    var s := Inside([OVERTAKEN], Surveyed(1, 0, [], {}));
    assert ChooseStep(s, 0).workers[0].phase.point.tasks == map["cc" := Waiting];
    assert ChooseStep(s, 0).workers == Inside([OVERTAKEN], Writing(Waiting)).workers;
  }

  lemma Loads()
    ensures Leads(Inside([OVERTAKEN], Writing(Waiting)), Load(0, "cc"), Inside([OVERTAKEN], Writing(Loaded([]))))
  {
    var s := Inside([OVERTAKEN], Writing(Waiting));
    assert Busy(PointOf(s, 0).tasks) == {};
    assert map["cc" := Waiting]["cc" := Loaded([])] == map["cc" := Loaded([])];
    assert SetTask(s, 0, "cc", Loaded([])).workers == Inside([OVERTAKEN], Writing(Loaded([]))).workers;
  }

  lemma Gathers()
    ensures Leads(Inside([OVERTAKEN], Writing(Loaded([]))), Gather(0, "cc", []),
                  Inside([OVERTAKEN], Writing(Built([]))))
  {
    var s := Inside([OVERTAKEN], Writing(Loaded([])));
    assert InputBuilder.Inputs(s.raws, [], [], []) == [];
    assert map["cc" := Loaded([])]["cc" := Built([])] == map["cc" := Built([])];
    assert SetTask(s, 0, "cc", Built([])).workers == Inside([OVERTAKEN], Writing(Built([]))).workers;
  }

  /** The run goes on by one step, time standing still. */
  ghost predicate Reaches(evs: seq<Event>, s: Sys)
  {
    Run(EMPTY, evs) == Some(s) && forall e :: e in evs ==> !e.Tick?
  }

  lemma OneStep(evs: seq<Event>, s: Sys, e: Event, t: Sys)
    requires Reaches(evs, s) && Leads(s, e, t) && !e.Tick?
    ensures Reaches(evs + [e], t)
  {
    RunSnoc(EMPTY, evs, e);
  }

  lemma OneRead(evs: seq<Event>, raws: seq<Raw>, p: Point, e: Event, q: Point)
    requires Reaches(evs, Inside(raws, p)) && IsRead(e) && !e.Extract? && e.w == 0 && Enabled(Inside(raws, p), e)
    requires q == AfterRead(Inside(raws, p), p)
    ensures Reaches(evs + [e], Inside(raws, q))
  {
    Reads(raws, p, e);
    OneStep(evs, Inside(raws, p), e, Inside(raws, q));
  }

  /** The iteration reads the clock and lists; then a raw commits in the same millisecond. */
  lemma CommitAfterListing() returns (evs: seq<Event>)
    ensures Reaches(evs, Inside([OVERTAKEN], Listed(1, 0, [])))
  {
    evs := [];
    Claims();
    OneStep(evs, EMPTY, RequestManual(0, Some("cc")), CLAIMED);
    evs := evs + [RequestManual(0, Some("cc"))];
    Begins();
    OneStep(evs, CLAIMED, Begin(0), Inside([], Opening));
    evs := evs + [Begin(0)];
    OneRead(evs, [], Opening, ReadClock(0), Clocked(1));
    evs := evs + [ReadClock(0)];
    OneRead(evs, [], Clocked(1), ReadWatermark(0), Marked(1, 0));
    evs := evs + [ReadWatermark(0)];
    OneRead(evs, [], Marked(1, 0), ListRaws(0), Listed(1, 0, []));
    evs := evs + [ListRaws(0)];
    Commits();
    OneStep(evs, Inside([], Listed(1, 0, [])), InsertRaw(OVERTAKEN), Inside([OVERTAKEN], Listed(1, 0, [])));
    evs := evs + [InsertRaw(OVERTAKEN)];
  }

  /** The iteration goes on with what it listed, up to the write. */
  lemma UntilTheWrite(before: seq<Event>) returns (evs: seq<Event>)
    requires Reaches(before, Inside([OVERTAKEN], Listed(1, 0, [])))
    ensures Reaches(evs, Inside([OVERTAKEN], Writing(Built([]))))
  {
    var raws := [OVERTAKEN];
    evs := before;
    OneRead(evs, raws, Listed(1, 0, []), Survey(0), Surveyed(1, 0, [], {}));
    evs := evs + [Survey(0)];
    Chooses();
    OneStep(evs, Inside(raws, Surveyed(1, 0, [], {})), Choose(0), Inside(raws, Writing(Waiting)));
    evs := evs + [Choose(0)];
    Loads();
    OneStep(evs, Inside(raws, Writing(Waiting)), Load(0, "cc"), Inside(raws, Writing(Loaded([]))));
    evs := evs + [Load(0, "cc")];
    Gathers();
    OneStep(evs, Inside(raws, Writing(Loaded([]))), Gather(0, "cc", []), Inside(raws, Writing(Built([]))));
    evs := evs + [Gather(0, "cc", [])];
  }

  /** From an empty database, a raw that carries the current clock when it commits is lost for good:
      the write stamps the same millisecond, so every later window starts behind it. */
  lemma SameMillisecondIsLost() returns (evs: seq<Event>)
    ensures Initial(EMPTY) && Run(EMPTY, evs).Some?
    ensures OVERTAKEN.createdAt == EMPTY.clock && forall e :: e in evs ==> !e.Tick?
    ensures Lost(Run(EMPTY, evs).value, OVERTAKEN)
  {
    var before := CommitAfterListing();
    var written := UntilTheWrite(before);
    var s := Inside([OVERTAKEN], Writing(Built([])));
    var write := Upsert(0, "cc", "", []);
    RunIsSafe(EMPTY, written);
    OvertakenIsLost(s, write, OVERTAKEN);
    OneStep(written, s, write, Apply(s, write));
    evs := written + [write];
  }
}
