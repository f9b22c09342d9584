/** What the steps of the coordinator decide, said over the slot and the tables themselves: which mode
    comes next, what an iteration reads, chooses and writes, and when a session or a worker ends. */
module WorkerDecisions {
  import opened Wrappers
  import opened Sequences
  import opened Storage
  import opened RebuildSlots
  import opened CoordinatorModel
  import opened CoordinatorSafety
  import opened CoordinatorTheorems

  // ----- which mode comes next -----

  /** The step puts worker `w` at the head of a session in `mode`. */
  ghost predicate HandsOut(s: Sys, e: Event, w: WorkerId, mode: Mode)
    requires Enabled(s, e)
  {
    && w in Apply(s, e).workers && Apply(s, e).workers[w].phase == Head(mode)
    && !(w in s.workers && s.workers[w].phase == Head(mode))
  }

  /** While an append is recorded as missed, every session handed out is an append session, whoever asks
      and whatever is pending. */
  lemma MissedAppendGoesFirst(s: Sys, e: Event, w: WorkerId, mode: Mode)
    requires Enabled(s, e) && HandsOut(s, e, w, mode) && s.slot.appendMissed
    ensures mode == Append
  {
    OthersStay(s, e);
  }

  lemma FlagIsHandedOut(s: Sys, e: Event)
    requires Enabled(s, e) && !e.ForceIdle? && s.slot.appendMissed && !Apply(s, e).slot.appendMissed
    ensures HandsOut(s, e, e.w, Append)
  {
    FlagBecomesHead(s, e);
  }

  /** Some step from `i` on hands out an append session. */
  ghost predicate AppendHandedOut(init: Sys, evs: seq<Event>, i: nat)
  {
    exists k: nat, w :: i <= k < |evs| && Run(init, evs[..k]).Some? && Enabled(Run(init, evs[..k]).value, evs[k]) &&
      HandsOut(Run(init, evs[..k]).value, evs[k], w, Append)
  }

  lemma HandedOutStays(init: Sys, evs: seq<Event>, i: nat)
    requires evs != [] && AppendHandedOut(init, evs[..|evs| - 1], i)
    ensures AppendHandedOut(init, evs, i)
  {
    var n := |evs| - 1;
    var k: nat, w :| i <= k < n && Run(init, evs[..n][..k]).Some? &&
      Enabled(Run(init, evs[..n][..k]).value, evs[..n][k]) &&
      HandsOut(Run(init, evs[..n][..k]).value, evs[..n][k], w, Append);
    assert evs[..n][..k] == evs[..k] && evs[..n][k] == evs[k];
  }

  /** A recorded notice stays recorded until an append session is handed out or the slot is forced idle. */
  lemma {:induction false} MissedUntilHandedOut(init: Sys, evs: seq<Event>, i: nat)
    requires Run(init, evs).Some? && i <= |evs| && Run(init, evs[..i]).Some?
    requires Run(init, evs[..i]).value.slot.appendMissed && forall k :: i <= k < |evs| ==> !evs[k].ForceIdle?
    ensures Run(init, evs).value.slot.appendMissed || AppendHandedOut(init, evs, i)
  {
    var n := |evs| - 1;
    if i == |evs| {
      assert evs[..i] == evs;
    } else {
      assert evs[..n][..i] == evs[..i];
      assert forall k :: i <= k < n ==> !evs[..n][k].ForceIdle?;
      MissedUntilHandedOut(init, evs[..n], i);
      var s := Run(init, evs[..n]).value;
      if AppendHandedOut(init, evs[..n], i) {
        HandedOutStays(init, evs, i);
      } else if !Run(init, evs).value.slot.appendMissed {
        FlagIsHandedOut(s, evs[n]);
        assert HandsOut(s, evs[n], evs[n].w, Append);
      }
    }
  }

  /** From a recorded notice on, no manual session is handed out before an append session has been,
      unless the slot is forced idle in between. */
  lemma {:induction false} NoManualBeforeMissedAppend(init: Sys, evs: seq<Event>, i: nat,
                                                      e: Event, w: WorkerId, mode: Mode)
    requires Run(init, evs).Some? && i <= |evs| && Run(init, evs[..i]).Some?
    requires Run(init, evs[..i]).value.slot.appendMissed && forall k :: i <= k < |evs| ==> !evs[k].ForceIdle?
    requires Enabled(Run(init, evs).value, e) && HandsOut(Run(init, evs).value, e, w, mode) && mode.Manual?
    ensures AppendHandedOut(init, evs, i)
  {
    MissedUntilHandedOut(init, evs, i);
    if Run(init, evs).value.slot.appendMissed { MissedAppendGoesFirst(Run(init, evs).value, e, w, mode); }
  }

  /** A request on a free slot starts what was asked, except that a missed append goes before a manual
      request, which then stays pending; on a held slot it starts nothing. */
  lemma RequestStarts(s: Sys, e: Event)
    requires Enabled(s, e) && (e.NotifyAppend? || e.RequestManual?)
    ensures var t, asked := Apply(s, e), if e.NotifyAppend? then Append else Manual(e.concept);
            if s.slot.running then
              && t.workers == s.workers && t.slot.running
              && (e.NotifyAppend? ==> t.slot.appendMissed && t.slot.manualPending == s.slot.manualPending)
              && (e.RequestManual? ==> t.slot.appendMissed == s.slot.appendMissed && t.slot.manualPending.Some?)
            else
              && t.slot.running && !t.slot.appendMissed && e.w in t.workers
              && t.workers[e.w] == Worker(Head(if s.slot.appendMissed then Append else asked), 0, false)
              && (s.slot.appendMissed && e.RequestManual? ==> t.slot.manualPending.Some?)
              && (!s.slot.appendMissed || e.NotifyAppend? ==> t.slot.manualPending == s.slot.manualPending)
  {
  }

  /** After a session the worker asks the slot, unless the session was capped: then it goes on appending
      until the third capped session in a row, and once more when that one left raws behind. */
  lemma SessionIsFollowed(s: Sys, w: WorkerId)
    requires Enabled(s, Conclude(w))
    ensures var k, slot, t := s.workers[w], s.slot, Apply(s, Conclude(w));
            if k.phase == Ended(DrainCapped) then
              k.caps < 2 && t.slot == slot && t.workers[w] == Worker(Head(Append), k.caps + 1, k.drained)
            else if k.phase == Weighed(true) && !k.drained then
              t.slot == slot && t.workers[w] == Worker(Head(Append), 0, true)
            else
              && t.workers[w].drained == k.drained && (k.phase.Ended? ==> t.workers[w].caps == 0)
              && (slot.appendMissed ==>
                    t.workers[w].phase == Head(Append) && t.slot == slot.(appendMissed := false))
              && (!slot.appendMissed && slot.manualPending.Some? ==>
                    t.workers[w].phase == Head(slot.manualPending.value) && t.slot == slot.(manualPending := None))
              && (!slot.appendMissed && slot.manualPending.None? ==>
                    t.workers[w].phase == Returned && t.slot == slot.(running := false))
  {
  }

  /** The lookup after the third capped session says "remainder" exactly when it failed or an own raw
      lies above the watermark. */
  lemma LookupFindsRemainder(s: Sys, w: WorkerId, until: int, failed: bool)
    requires Enabled(s, Lookup(w, until, failed))
    ensures s.workers[w].caps >= 2
    ensures var t := Apply(s, Lookup(w, until, failed));
            && t.workers[w].phase.Weighed? && t.workers[w].caps == s.workers[w].caps + 1
            && (t.workers[w].phase.remainder <==>
                  failed || exists r :: r in s.raws && Mine(s, r) && Watermark(s.wikis) < r.createdAt <= until)
  {
    var rest := ListSince(s.raws, Personal, s.owner, Watermark(s.wikis), until);
    if rest != [] { assert rest[0] in rest; }
  }

  // ----- what an iteration reads -----

  predicate InOwnWindow(s: Sys, r: Raw, since: int, until: int)
  {
    r in s.raws && Mine(s, r) && since < r.createdAt <= until
  }

  /** The iteration starts at the current clock and lists exactly the own raws after the watermark it
      read, up to that start. */
  lemma ReadsAreCurrent(s: Sys, e: Event)
    requires Enabled(s, e) && (e.ReadClock? || e.ReadWatermark? || e.ListRaws? || e.Survey?)
    ensures InSession(Apply(s, e), e.w)
    ensures var p, q := PointOf(s, e.w), PointOf(Apply(s, e), e.w);
            && (e.ReadClock? ==> q == Clocked(s.clock))
            && (e.ReadWatermark? ==> q == Marked(p.startedAt, Watermark(s.wikis)))
            && (e.ListRaws? ==> q.Listed? && q.startedAt == p.startedAt && q.watermark == p.watermark)
            && (e.ListRaws? ==> forall r :: r in q.newRaws <==> InOwnWindow(s, r, p.watermark, p.startedAt))
            && (e.Survey? ==> q == Surveyed(p.startedAt, p.watermark, p.newRaws, s.wikis.Keys))
  {
  }

  // ----- what an iteration chooses -----

  function CountValid(names: seq<string>): nat
  {
    if names == [] then 0 else CountValid(names[..|names| - 1]) + if ValidConcept(names[|names| - 1]) then 1 else 0
  }

  /** Position `i` of the reply holds a valid new name, with fewer valid ones before it than there is room. */
  ghost predicate FitsAt(names: seq<string>, room: int, i: nat)
  {
    i < |names| && ValidConcept(names[i]) && CountValid(names[..i]) < room
  }

  ghost predicate Fits(names: seq<string>, room: int, c: string)
  {
    exists i: nat :: FitsAt(names, room, i) && names[i] == c
  }

  lemma {:induction false} KeepValidSnoc(names: seq<string>, name: string)
    ensures KeepValid(names + [name]) == KeepValid(names) + if ValidConcept(name) then [name] else []
  {
    if names == [] {
      assert KeepValid([name][1..]) == [];
    } else {
      assert (names + [name])[1..] == names[1..] + [name];
      KeepValidSnoc(names[1..], name);
    }
  }

  lemma FirstNSnoc(n: nat, xs: seq<string>, x: string, c: string)
    ensures c in FirstN(n, xs + [x]) <==> c in FirstN(n, xs) || (|xs| < n && c == x)
  {
    if |xs| < n {
      assert FirstN(n, xs + [x]) == xs + [x] && FirstN(n, xs) == xs;
    } else {
      assert FirstN(n, xs + [x]) == FirstN(n, xs);
    }
  }

  lemma {:induction false} ValidAreCounted(names: seq<string>)
    ensures |KeepValid(names)| == CountValid(names)
  {
    if names == [] {
    } else {
      var n := |names| - 1;
      ValidAreCounted(names[..n]);
      KeepValidSnoc(names[..n], names[n]);
      assert names == names[..n] + [names[n]];
    }
  }

  lemma FitsSnoc(init: seq<string>, last: string, room: nat, c: string)
    ensures Fits(init + [last], room, c) <==>
            || Fits(init, room, c)
            || (ValidConcept(last) && CountValid(init) < room && last == c)
  {
    var names := init + [last];
    forall i: nat | i < |init| ensures FitsAt(init, room, i) <==> FitsAt(names, room, i) {
      assert names[..i] == init[..i];
    }
    assert names[..|init|] == init;
    if i: nat :| FitsAt(init, room, i) && init[i] == c { assert FitsAt(names, room, i) && names[i] == c; }
    if i: nat :| FitsAt(names, room, i) && names[i] == c {
      assert i < |init| ==> FitsAt(init, room, i) && init[i] == c;
    }
    if ValidConcept(last) && CountValid(init) < room && last == c {
      assert FitsAt(names, room, |init|) && names[|init|] == c;
    }
  }

  lemma {:induction false} FirstValid(names: seq<string>, room: nat, c: string)
    ensures c in FirstN(room, KeepValid(names)) <==> Fits(names, room, c)
  {
    if names == [] {
    } else {
      var n := |names| - 1;
      var init, last := names[..n], names[n];
      assert names == init + [last];
      FirstValid(init, room, c);
      KeepValidSnoc(init, last);
      ValidAreCounted(init);
      FirstNSnoc(room, KeepValid(init), last, c);
      FitsSnoc(init, last, room, c);
      assert KeepValid(init) + [] == KeepValid(init);
    }
  }

  /** An append iteration takes every valid existing concept the reply names, and the first valid new
      names for which the budget of 200 has room, and nothing else. */
  lemma ChosenByReply(reply: Reply, existing: set<string>, count: nat, c: string)
    ensures c in AppendAffected(reply, existing, count) <==>
            || (c in reply.affectedExisting && ValidConcept(c) && c in existing)
            || Fits(reply.newConcepts, 200 - count, c)
  {
    FirstValid(reply.newConcepts, if count < 200 then 200 - count else 0, c);
  }

  /** What the selection makes of an iteration: an append iteration without new raws ends the session; a
      manual one takes its concept, or all, or gives a new concept up at 200 and goes on appending. */
  lemma ChosenByMode(s: Sys, w: WorkerId)
    requires Enabled(s, Choose(w))
    ensures var p, mode, k := PointOf(s, w), ModeOf(s, w), Apply(s, Choose(w)).workers[w].phase;
            match mode
            case Append =>
              if p.Surveyed? then p.newRaws == [] && k == Ended(Done)
              else Takes(k, p, mode, AppendAffected(p.reply, p.existing, |s.wikis|))
            case Manual(Some(c)) =>
              if c !in p.existing && |s.wikis| >= 200
              then k.Session? && k.mode == Append && k.point == Opening
              else Takes(k, p, mode, {c})
            case Manual(None) => Takes(k, p, mode, p.existing)
  {
  }

  /** The iteration goes on to synthesize exactly these concepts, or ends the session when there are none. */
  ghost predicate Takes(k: Phase, p: Point, mode: Mode, affected: set<string>)
    requires p.Surveyed? || p.Extracted?
  {
    if affected == {} then k == Ended(Done)
    else
      && k.Session? && k.mode == mode && k.point.Synthesizing? && k.point.tasks.Keys == affected
      && (forall c :: c in affected ==> k.point.tasks[c] == Waiting)
      && k.point.startedAt == p.startedAt && k.point.newRaws == p.newRaws
  }

  // ----- what a synthesis writes -----

  /** A write replaces exactly the row of its concept: the content returned, exactly the returned
      references that are among the inputs, stamped with the start of the iteration. */
  lemma WriteIsOneRow(s: Sys, w: WorkerId, c: string, content: string, refs: seq<string>)
    requires Enabled(s, Upsert(w, c, content, refs))
    ensures var wikis := Apply(s, Upsert(w, c, content, refs)).wikis;
            && c in wikis && wikis == s.wikis[c := wikis[c]]
            && wikis[c].content == content && wikis[c].lastRebuiltAt == PointOf(s, w).startedAt
            && wikis[c].sourceRefs == KeepIds(refs, RawIds(TaskOf(s, w, c).inputs))
            && (forall id :: id in wikis[c].sourceRefs <==>
                               id in refs && exists r :: r in TaskOf(s, w, c).inputs && r.id == id)
  {
  }

  // ----- when a session ends -----

  /** A session ends as done only in an iteration that found nothing to do, and as capped only after
      the tenth; any other finished iteration is followed by an append iteration. */
  lemma SessionEnds(s: Sys, e: Event, w: WorkerId)
    requires Enabled(s, e) && InSession(s, w) && w in Apply(s, e).workers
    requires !e.Fail? && !e.Crash?
    ensures var k, k' := s.workers[w].phase, Apply(s, e).workers[w].phase;
            && (k' == Ended(Done) ==> e == Choose(w))
            && (k' == Ended(DrainCapped) <==> e == FinishIteration(w) && k.iteration == 10)
            && (e == FinishIteration(w) && k.iteration != 10 ==> k' == Session(Append, k.iteration + 1, Opening))
  {
    OthersStay(s, e);
  }
}
