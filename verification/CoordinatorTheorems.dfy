/** The coordinator's promises over whole runs. */
module CoordinatorTheorems {
  import opened Wrappers
  import opened Storage
  import opened RebuildSlots
  import opened CoordinatorModel
  import opened CoordinatorSafety

  // ----- every reachable state is safe -----

  lemma {:induction false} RunIsSafe(init: Sys, evs: seq<Event>)
    requires Initial(init) && Run(init, evs).Some?
    ensures Safe(Run(init, evs).value)
  {
    if evs == [] {
    } else {
      var n := |evs| - 1;
      RunIsSafe(init, evs[..n]);
      SafeStep(Run(init, evs[..n]).value, evs[n]);
    }
  }

  /** `running` is up exactly when one worker is claimed, executing or failed but not yet released. */
  lemma {:induction false} OneLiveWorker(init: Sys, evs: seq<Event>)
    requires Initial(init) && Run(init, evs).Some?
    ensures var s := Run(init, evs).value; |LiveSet(s)| == if s.slot.running then 1 else 0
  {
    RunIsSafe(init, evs);
    var s := Run(init, evs).value;
    if s.slot.running {
      var w :| w in s.workers && Live(s.workers[w]);
      assert LiveSet(s) == {w};
    } else {
      assert LiveSet(s) == {};
    }
  }

  /** A wrapper's epilogue lowers the flag only while its own worker holds it; the wrapper of a worker
      that ended normally leaves the slot alone, whoever holds it by then. */
  lemma {:induction false} EpilogueOwnsFlag(init: Sys, evs: seq<Event>, e: Event)
    requires Initial(init) && Run(init, evs).Some? && Enabled(Run(init, evs).value, e)
    ensures var s := Run(init, evs).value;
            && (e.Release? || e.ForceIdle? ==> LiveSet(s) == {e.w} && s.slot.running)
            && (e.Leave? ==> Apply(s, e).slot == s.slot && LiveSet(Apply(s, e)) == LiveSet(s))
            && (e.Leave? ==> Apply(s, e) == s.(workers := s.workers - {e.w}))
  {
    RunIsSafe(init, evs);
    var s := Run(init, evs).value;
    if e.Release? || e.ForceIdle? {
      assert Live(s.workers[e.w]);
      assert LiveSet(s) == {e.w};
    }
  }

  /** At most 200 concepts, whatever the extractor answers and whatever is asked for. */
  lemma {:induction false} BudgetHolds(init: Sys, evs: seq<Event>)
    requires Initial(init) && Run(init, evs).Some?
    ensures |Run(init, evs).value.wikis| <= CONCEPT_LIMIT_PER_OWNER
  {
    RunIsSafe(init, evs);
  }

  /** Every stored reference is the id of a personal raw of the same owner, and of no other raw. */
  lemma {:induction false} ReferencesAreOwn(init: Sys, evs: seq<Event>, c: string, id: string)
    requires Initial(init) && Run(init, evs).Some?
    requires c in Run(init, evs).value.wikis && id in Run(init, evs).value.wikis[c].sourceRefs
    ensures var s := Run(init, evs).value; Get(s.raws, id).Some? && Mine(s, Get(s.raws, id).value)
  {
    RunIsSafe(init, evs);
    var s := Run(init, evs).value;
    assert OwnRefs(s, s.wikis[c].sourceRefs);
  }

  /** The stored request is what the requests since the last take add up to. */
  lemma {:induction false} PendingIsFaithful(init: Sys, evs: seq<Event>)
    requires Initial(init) && Run(init, evs).Some?
    ensures var s := Run(init, evs).value; s.slot.manualPending == PendingOf(s.asked)
  {
    RunIsSafe(init, evs);
  }

  // ----- the watermark -----

  lemma WatermarkStep(s: Sys, e: Event)
    requires Safe(s) && Enabled(s, e)
    ensures Watermark(s.wikis) <= Watermark(Apply(s, e).wikis)
  {
    StepGrows(s, e);
    if e.Upsert? {
      assert PhaseOk(s, s.workers[e.w].phase);
      UpsertWatermark(s, e.w, e.c, e.content, e.refs);
    }
  }

  lemma {:induction false} WatermarkNeverDecreases(init: Sys, evs: seq<Event>, i: nat)
    requires Initial(init) && Run(init, evs).Some? && i <= |evs|
    ensures Run(init, evs[..i]).Some?
    ensures Watermark(Run(init, evs[..i]).value.wikis) <= Watermark(Run(init, evs).value.wikis)
  {
    var n := |evs| - 1;
    if i == |evs| {
      assert evs[..i] == evs;
    } else {
      assert evs[..n][..i] == evs[..i];
      WatermarkNeverDecreases(init, evs[..n], i);
      RunIsSafe(init, evs[..n]);
      WatermarkStep(Run(init, evs[..n]).value, evs[n]);
    }
  }

  // ----- coverage below the watermark -----

  /** The worker has listed its iteration's raws. */
  predicate HasListing(s: Sys, w: WorkerId)
  {
    InSession(s, w) && !PointOf(s, w).Opening? && !PointOf(s, w).Clocked? && !PointOf(s, w).Marked?
  }

  /** The discipline on commits: no raw of this owner commits at or below the watermark, nor inside
      the window an unfinished iteration has already listed. */
  ghost predicate OnTime(s: Sys, e: Event)
  {
    e.InsertRaw? && Mine(s, e.raw) ==>
      && Watermark(s.wikis) < e.raw.createdAt
      && forall w :: HasListing(s, w) ==> PointOf(s, w).startedAt < e.raw.createdAt
  }

  ghost predicate RunOnTime(init: Sys, evs: seq<Event>)
    requires Run(init, evs).Some?
  {
    evs == [] ||
    (RunOnTime(init, evs[..|evs| - 1]) && OnTime(Run(init, evs[..|evs| - 1]).value, evs[|evs| - 1]))
  }

  /** Listed by an iteration that wrote a wiki, and extracted unless that iteration was manual. */
  ghost predicate Digested(s: Sys, r: Raw)
  {
    r.id in s.absorbed && (r.id in s.extracted || r.id in s.viaManual)
  }

  ghost predicate Covered(s: Sys)
  {
    forall r :: r in s.raws && Mine(s, r) && r.createdAt <= Watermark(s.wikis) ==> Digested(s, r)
  }

  /** A listing in flight still holds every raw of its window. */
  ghost predicate ListingsComplete(s: Sys)
  {
    forall w, r ::
      (HasListing(s, w) && r in s.raws && Mine(s, r) &&
       PointOf(s, w).watermark < r.createdAt <= PointOf(s, w).startedAt) ==>
        r in PointOf(s, w).newRaws
  }

  /** A listing survives every step whole; `ListRaws` makes one. */
  lemma ListingStep(s: Sys, e: Event, w: WorkerId, r: Raw)
    requires Enabled(s, e) && ListingsComplete(s) && OnTime(s, e)
    requires HasListing(Apply(s, e), w) && r in Apply(s, e).raws && Mine(s, r)
    requires var p := PointOf(Apply(s, e), w); p.watermark < r.createdAt <= p.startedAt
    ensures r in PointOf(Apply(s, e), w).newRaws
  {
    OthersStay(s, e);
    if e.InsertRaw? {
      assert Apply(s, e).workers == s.workers && HasListing(s, w);
    } else if Actor(e) != Some(w) {
      ListingElsewhere(s, e, w);
    } else if !e.ListRaws? {
      ListingKept(s, e);
      assert Apply(s, e).raws == s.raws;
    }
  }

  lemma ListingElsewhere(s: Sys, e: Event, w: WorkerId)
    requires Enabled(s, e) && !e.InsertRaw? && Actor(e) != Some(w) && HasListing(Apply(s, e), w)
    ensures HasListing(s, w) && PointOf(Apply(s, e), w) == PointOf(s, w) && Apply(s, e).raws == s.raws
  {
    OthersStay(s, e);
  }

  lemma ListingKept(s: Sys, e: Event)
    requires Enabled(s, e) && Actor(e).Some? && !e.ListRaws? && HasListing(Apply(s, e), e.w)
    ensures HasListing(s, e.w)
    ensures var p, q := PointOf(s, e.w), PointOf(Apply(s, e), e.w);
            p.watermark == q.watermark && p.startedAt == q.startedAt && p.newRaws == q.newRaws
  {
  }

  lemma CoverageOfUpsert(s: Sys, e: Event)
    requires Safe(s) && Enabled(s, e) && e.Upsert? && Covered(s) && ListingsComplete(s)
    ensures Covered(Apply(s, e))
  {
    var t, p := Apply(s, e), PointOf(s, e.w);
    assert PhaseOk(s, s.workers[e.w].phase) && HasListing(s, e.w);
    UpsertWatermark(s, e.w, e.c, e.content, e.refs);
    StepGrows(s, e);
    forall r | r in t.raws && Mine(t, r) && r.createdAt <= Watermark(t.wikis) ensures Digested(t, r) {
      if r.createdAt <= p.watermark {
        assert Digested(s, r);
      } else {
        assert r in p.newRaws && r.id in RawIds(p.newRaws);
      }
    }
  }

  lemma CoverageStep(s: Sys, e: Event)
    requires Safe(s) && Enabled(s, e) && OnTime(s, e) && Covered(s) && ListingsComplete(s)
    ensures Covered(Apply(s, e)) && ListingsComplete(Apply(s, e))
  {
    var t := Apply(s, e);
    StepGrows(s, e);
    if e.Upsert? {
      CoverageOfUpsert(s, e);
    } else {
      forall r | r in t.raws && Mine(t, r) && r.createdAt <= Watermark(t.wikis) ensures Digested(t, r) {
        assert r in s.raws;
        assert Digested(s, r);
      }
    }
    forall w, r | HasListing(t, w) && r in t.raws && Mine(t, r)
        && PointOf(t, w).watermark < r.createdAt <= PointOf(t, w).startedAt
      ensures r in PointOf(t, w).newRaws
    {
      ListingStep(s, e, w, r);
    }
  }

  lemma {:induction false} CoverageInvariant(init: Sys, evs: seq<Event>)
    requires Initial(init) && Run(init, evs).Some? && RunOnTime(init, evs)
    ensures Covered(Run(init, evs).value) && ListingsComplete(Run(init, evs).value)
  {
    if evs == [] {
    } else {
      var n := |evs| - 1;
      CoverageInvariant(init, evs[..n]);
      RunIsSafe(init, evs[..n]);
      CoverageStep(Run(init, evs[..n]).value, evs[n]);
    }
  }

  // ----- append-only runs extract everything -----

  ghost predicate AppendOnly(s: Sys)
  {
    && s.slot.manualPending.None? && s.viaManual == {}
    && forall w :: w in s.workers ==>
         (s.workers[w].phase.Head? || s.workers[w].phase.Session? ==> s.workers[w].phase.mode.Append?)
  }

  lemma AppendOnlyStep(s: Sys, e: Event)
    requires AppendOnly(s) && Enabled(s, e) && !e.RequestManual?
    ensures AppendOnly(Apply(s, e))
  {
    OthersStay(s, e);
  }

  lemma {:induction false} AppendOnlyRun(init: Sys, evs: seq<Event>)
    requires Initial(init) && Run(init, evs).Some? && forall e :: e in evs ==> !e.RequestManual?
    ensures AppendOnly(Run(init, evs).value)
  {
    if evs == [] {
    } else {
      var n := |evs| - 1;
      AppendOnlyRun(init, evs[..n]);
      AppendOnlyStep(Run(init, evs[..n]).value, evs[n]);
    }
  }

  /** Coverage: in a run whose commits are on time, every own raw at or below the watermark was listed
      by an iteration that wrote a wiki; if nobody asked for a manual rebuild it was also extracted. */
  lemma {:induction false} WatermarkCoverage(init: Sys, evs: seq<Event>, r: Raw)
    requires Initial(init) && Run(init, evs).Some? && RunOnTime(init, evs)
    requires var s := Run(init, evs).value; r in s.raws && Mine(s, r) && r.createdAt <= Watermark(s.wikis)
    ensures r.id in Run(init, evs).value.absorbed
    ensures r.id in Run(init, evs).value.extracted || r.id in Run(init, evs).value.viaManual
    ensures (forall e :: e in evs ==> !e.RequestManual?) ==> r.id in Run(init, evs).value.extracted
  {
    CoverageInvariant(init, evs);
    assert Digested(Run(init, evs).value, r);
    if forall e :: e in evs ==> !e.RequestManual? {
      AppendOnlyRun(init, evs);
    }
  }

  // ----- the discipline is needed: a late raw is lost for good -----

  /** Below the watermark, never absorbed, and in nobody's hands. */
  ghost predicate Lost(s: Sys, r: Raw)
  {
    && r in s.raws && Mine(s, r) && r.createdAt <= Watermark(s.wikis) && r.id !in s.absorbed
    && forall w :: HasListing(s, w) ==> r.id !in RawIds(PointOf(s, w).newRaws)
  }

  lemma LostStaysOut(s: Sys, e: Event, r: Raw, w: WorkerId)
    requires Safe(s) && Enabled(s, e) && Lost(s, r) && HasListing(Apply(s, e), w)
    ensures r.id !in RawIds(PointOf(Apply(s, e), w).newRaws)
  {
    OthersStay(s, e);
    if e.ListRaws? && e.w == w {
      assert PhaseOk(s, s.workers[w].phase);
      var p := PointOf(s, w);
      var listed := ListSince(s.raws, Personal, s.owner, p.watermark, p.startedAt);
      assert forall x :: x in listed ==> x.id != r.id;
    } else if Actor(e) == Some(w) {
      ListingKept(s, e);
    } else {
      assert HasListing(s, w);
    }
  }

  lemma LostStep(s: Sys, e: Event, r: Raw)
    requires Safe(s) && Enabled(s, e) && Lost(s, r)
    ensures Lost(Apply(s, e), r)
  {
    StepGrows(s, e);
    WatermarkStep(s, e);
    if e.Upsert? { assert HasListing(s, e.w); }
    forall w | HasListing(Apply(s, e), w) ensures r.id !in RawIds(PointOf(Apply(s, e), w).newRaws) {
      LostStaysOut(s, e, r, w);
    }
  }

  /** No continuation ever lists a lost raw again. */
  lemma {:induction false} LostForGood(s: Sys, evs: seq<Event>, r: Raw)
    requires Safe(s) && Lost(s, r) && Run(s, evs).Some?
    ensures Lost(Run(s, evs).value, r) && Safe(Run(s, evs).value)
  {
    if evs == [] {
    } else {
      var n := |evs| - 1;
      LostForGood(s, evs[..n], r);
      SafeStep(Run(s, evs[..n]).value, evs[n]);
      LostStep(Run(s, evs[..n]).value, evs[n], r);
    }
  }

  lemma FreshIsUnlisted(s: Sys, e: Event, w: WorkerId)
    requires Safe(s) && Enabled(s, e) && e.InsertRaw? && HasListing(s, w)
    ensures e.raw.id !in RawIds(PointOf(s, w).newRaws) && e.raw.id !in s.absorbed
  {
    assert PhaseOk(s, s.workers[w].phase);
  }

  /** A commit that breaks the first half of the discipline is lost at once; one that breaks the
      second half is lost as soon as the iteration it slipped behind writes a wiki. */
  lemma {:induction false} LateCommitIsLost(s: Sys, e: Event)
    requires Safe(s) && Enabled(s, e) && e.InsertRaw? && Mine(s, e.raw)
    ensures e.raw.createdAt <= Watermark(s.wikis) ==> Lost(Apply(s, e), e.raw)
    ensures forall w :: HasListing(s, w) && e.raw.createdAt <= PointOf(s, w).startedAt ==>
              e.raw.id !in RawIds(PointOf(Apply(s, e), w).newRaws) && e.raw.id !in Apply(s, e).absorbed
  {
    var t := Apply(s, e);
    assert t.workers == s.workers;
    forall w | HasListing(s, w)
      ensures e.raw.id !in RawIds(PointOf(t, w).newRaws) && e.raw.id !in t.absorbed
    {
      FreshIsUnlisted(s, e, w);
    }
  }

  lemma {:induction false} OvertakenIsLost(s: Sys, e: Event, r: Raw)
    requires Safe(s) && Enabled(s, e) && e.Upsert?
    requires r in s.raws && Mine(s, r) && r.id !in s.absorbed
    requires r.createdAt <= PointOf(s, e.w).startedAt && r.id !in RawIds(PointOf(s, e.w).newRaws)
    ensures Lost(Apply(s, e), r)
  {
    var t := Apply(s, e);
    assert PhaseOk(s, s.workers[e.w].phase) && Live(s.workers[e.w]);
    UpsertWatermark(s, e.w, e.c, e.content, e.refs);
    forall w | HasListing(t, w) ensures r.id !in RawIds(PointOf(t, w).newRaws) {
      OthersStay(s, e);
      if w == e.w { ListingKept(s, e); } else { assert Live(s.workers[w]); }
    }
  }

  // ----- no lost wake-up -----

  /** An append session is recorded or about to begin, or a panicked worker's wrapper has yet to run
      `force_idle`. */
  ghost predicate AppendOwed(s: Sys)
  {
    s.slot.appendMissed || exists w :: w in s.workers && Waits(s.workers[w].phase)
  }

  predicate Waits(phase: Phase)
  {
    phase == Head(Append) || phase.Broken?
  }

  /** An append session begins with this event. */
  ghost predicate AppendBegins(s: Sys, e: Event)
  {
    e.Begin? && e.w in s.workers && s.workers[e.w].phase == Head(Append)
  }

  lemma NoticeIsOwed(s: Sys, e: Event)
    requires Safe(s) && Enabled(s, e) && e.NotifyAppend?
    ensures AppendOwed(Apply(s, e))
  {
    var t := Apply(s, e);
    if !s.slot.running { assert t.workers[e.w].phase == Head(Append); }
  }

  /** The missed-append flag is only cleared into the head of an append session. */
  lemma FlagBecomesHead(s: Sys, e: Event)
    requires Enabled(s, e) && !e.ForceIdle? && s.slot.appendMissed && !Apply(s, e).slot.appendMissed
    ensures e.NotifyAppend? || e.RequestManual? || e.Conclude?
    ensures e.w in Apply(s, e).workers && Apply(s, e).workers[e.w].phase == Head(Append)
  {
  }

  /** A worker at the head of an append session can only begin it or break, and one that broke waits. */
  lemma WaitingStays(s: Sys, e: Event, w: WorkerId)
    requires Enabled(s, e) && w in s.workers && Waits(s.workers[w].phase) && Actor(e) == Some(w)
    requires !AppendBegins(s, e) && !e.ForceIdle?
    ensures w in Apply(s, e).workers && Apply(s, e).workers[w].phase.Broken?
  {
  }

  /** The debt is paid only by an append session that begins, or dropped by `force_idle`. */
  lemma DebtStep(s: Sys, e: Event)
    requires Enabled(s, e) && AppendOwed(s)
    requires !AppendBegins(s, e) && !e.ForceIdle?
    ensures AppendOwed(Apply(s, e))
  {
    if s.slot.appendMissed {
      if !Apply(s, e).slot.appendMissed { FlagBecomesHead(s, e); }
    } else {
      var w :| w in s.workers && Waits(s.workers[w].phase);
      if Actor(e) == Some(w) { WaitingStays(s, e, w); } else { OthersStay(s, e); }
    }
  }

  /** The event at position `k` begins an append session, or forces the slot idle after a panic or join error. */
  ghost predicate PaysAt(init: Sys, evs: seq<Event>, k: nat)
    requires k < |evs|
  {
    && Run(init, evs[..k]).Some?
    && (AppendBegins(Run(init, evs[..k]).value, evs[k]) || evs[k].ForceIdle?)
  }

  /** No lost wake-up: after every notice, an append session has begun since, or one is owed still,
      unless `force_idle` came in between. */
  lemma {:induction false} NoLostWakeUp(init: Sys, evs: seq<Event>, i: nat)
    requires Initial(init) && Run(init, evs).Some? && i < |evs| && evs[i].NotifyAppend?
    ensures AppendOwed(Run(init, evs).value) || exists k :: i < k < |evs| && PaysAt(init, evs, k)
  {
    var n := |evs| - 1;
    RunIsSafe(init, evs[..n]);
    var s := Run(init, evs[..n]).value;
    if i == n {
      NoticeIsOwed(s, evs[n]);
    } else {
      NoLostWakeUp(init, evs[..n], i);
      if AppendOwed(s) {
        if AppendBegins(s, evs[n]) || evs[n].ForceIdle? {
          assert PaysAt(init, evs, n);
        } else {
          DebtStep(s, evs[n]);
        }
      } else {
        var k :| i < k < n && PaysAt(init, evs[..n], k);
        assert evs[..n][..k] == evs[..k];
        assert PaysAt(init, evs, k);
      }
    }
  }
}
