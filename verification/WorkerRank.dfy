/** How long a worker can go on: a potential that every session pays for and only an outside request
    can refill. */
module WorkerRank {
  import opened Wrappers
  import opened RebuildSlots
  import opened CoordinatorModel
  import opened CoordinatorSafety
  import opened CoordinatorTheorems

  function Sessions(evs: seq<Event>, w: WorkerId): nat
  {
    if evs == [] then 0
    else Sessions(evs[..|evs| - 1], w) + if evs[|evs| - 1] == Begin(w) then 1 else 0
  }

  function IsRequest(e: Event): bool
  {
    e.NotifyAppend? || e.RequestManual?
  }

  function Requests(evs: seq<Event>): nat
  {
    if evs == [] then 0
    else Requests(evs[..|evs| - 1]) + if IsRequest(evs[|evs| - 1]) then 1 else 0
  }

  /** The worker's wrapper has not finished with it. */
  predicate Stays(evs: seq<Event>, w: WorkerId)
  {
    evs == [] ||
    (Stays(evs[..|evs| - 1], w) && !EndsWrapper(evs[|evs| - 1], w))
  }

  // ----- the potential -----

  function Flags(slot: Slot): nat
  {
    (if slot.appendMissed then 1 else 0) + (if slot.manualPending.Some? then 1 else 0)
  }

  /** Sessions the worker can still run before it asks the slot, the forced drain aside. */
  function GapLeft(k: Worker): nat
  {
    var streak := if k.caps < 2 then k.caps else 2;
    match k.phase
    case Head(_) => 3 - streak
    case Session(_, _, _) => 2 - streak
    case Ended(_) => 2 - streak
    case _ => 0
  }

  function DrainLeft(k: Worker): nat
  {
    if k.drained then 0 else 3
  }

  /** Sessions the worker can still run in all, if nobody asks for anything more. */
  function Potential(slot: Slot, k: Worker): nat
  {
    if k.phase.Returned? || k.phase.Failed? || k.phase.Broken? then 0
    else GapLeft(k) + DrainLeft(k) + 3 * Flags(slot)
  }

  lemma PotentialBound(slot: Slot, k: Worker)
    ensures Potential(slot, k) <= 12
  {
  }

  predicate InsideSession(e: Event)
  {
    IsRead(e) || e.Choose? || e.Load? || e.Gather? || e.Upsert? || e.Abandon? || e.FinishIteration?
  }

  /** Inside a session neither the slot nor the worker's counters move. */
  lemma SessionLeavesCounters(s: Sys, e: Event)
    requires Enabled(s, e) && InsideSession(e)
    ensures var t := Apply(s, e);
            && s.workers[e.w].phase.Session? && e.w in t.workers && t.slot == s.slot
            && t.workers[e.w].caps == s.workers[e.w].caps && t.workers[e.w].drained == s.workers[e.w].drained
            && (t.workers[e.w].phase.Session? || t.workers[e.w].phase.Ended?)
  {
  }

  lemma ConcludePays(s: Sys, w: WorkerId)
    requires Enabled(s, Conclude(w))
    ensures var t := ConcludeStep(s, w);
            Potential(t.slot, t.workers[w]) <= Potential(s.slot, s.workers[w])
  {
  }

  lemma OthersPay(s: Sys, e: Event, w: WorkerId)
    requires Exclusive(s) && Enabled(s, e) && w in s.workers && Live(s.workers[w]) && Actor(e) != Some(w)
    ensures var t := Apply(s, e);
            && w in t.workers && t.workers[w] == s.workers[w]
            && Flags(t.slot) <= Flags(s.slot) + (if IsRequest(e) then 1 else 0)
  {
    OthersStay(s, e);
    if Actor(e).Some? { ActorIsLive(s, e); }
  }

  lemma {:induction false} PotentialStep(s: Sys, e: Event, w: WorkerId)
    requires Exclusive(s) && Enabled(s, e) && w in s.workers && w in Apply(s, e).workers && Live(s.workers[w])
    ensures var t := Apply(s, e);
            Potential(t.slot, t.workers[w]) + (if e == Begin(w) then 1 else 0)
              <= Potential(s.slot, s.workers[w]) + (if IsRequest(e) then 3 else 0)
  {
    if Actor(e) != Some(w) {
      OthersPay(s, e, w);
    } else if InsideSession(e) {
      SessionLeavesCounters(s, e);
    } else if e.Conclude? {
      ConcludePays(s, w);
    }
  }

  predicate EndsWrapper(e: Event, w: WorkerId)
  {
    e in {Release(w), ForceIdle(w), Leave(w)}
  }

  lemma StaysOneStep(s: Sys, e: Event, w: WorkerId)
    requires Enabled(s, e) && w in s.workers && !EndsWrapper(e, w)
    ensures w in Apply(s, e).workers && (s.workers[w].drained ==> Apply(s, e).workers[w].drained)
  {
    if Actor(e) != Some(w) {
      OthersStay(s, e);
    } else if InsideSession(e) {
      SessionLeavesCounters(s, e);
    } else if e.Conclude? {
      assert Apply(s, e) == ConcludeStep(s, w);
    }
  }

  /** A returned worker's id is not used again before its wrapper leaves. */
  lemma ReturnedStays(s: Sys, e: Event, w: WorkerId)
    requires Enabled(s, e) && w in s.workers && !Live(s.workers[w]) && !EndsWrapper(e, w)
    ensures w in Apply(s, e).workers && Apply(s, e).workers[w] == s.workers[w] && e != Begin(w)
  {
    if Actor(e).Some? { ActorIsLive(s, e); }
    OthersStay(s, e);
  }

  lemma PaidStep(s: Sys, e: Event, w: WorkerId)
    requires Exclusive(s) && Enabled(s, e) && w in s.workers && !EndsWrapper(e, w)
    ensures var t := Apply(s, e);
            && w in t.workers
            && Potential(t.slot, t.workers[w]) + (if e == Begin(w) then 1 else 0)
                 <= Potential(s.slot, s.workers[w]) + (if IsRequest(e) then 3 else 0)
  {
    if Live(s.workers[w]) {
      StaysOneStep(s, e, w);
      PotentialStep(s, e, w);
    } else {
      ReturnedStays(s, e, w);
    }
  }

  lemma {:induction false} ExclusiveRun(s: Sys, evs: seq<Event>)
    requires Exclusive(s) && Run(s, evs).Some?
    ensures Exclusive(Run(s, evs).value)
  {
    if evs == [] {
    } else {
      ExclusiveRun(s, evs[..|evs| - 1]);
      ExclusiveStep(Run(s, evs[..|evs| - 1]).value, evs[|evs| - 1]);
    }
  }

  /** Over any stretch of a run, the sessions begun are paid for by the potential at its start and by
      three more for every outside request in it. */
  lemma {:induction false} SessionsArePaid(s: Sys, evs: seq<Event>, w: WorkerId)
    requires Exclusive(s) && Run(s, evs).Some? && w in s.workers && Stays(evs, w)
    ensures w in Run(s, evs).value.workers
    ensures var t := Run(s, evs).value;
            Sessions(evs, w) + Potential(t.slot, t.workers[w])
              <= Potential(s.slot, s.workers[w]) + 3 * Requests(evs)
  {
    if evs == [] {
    } else {
      var n := |evs| - 1;
      SessionsArePaid(s, evs[..n], w);
      ExclusiveRun(s, evs[..n]);
      PaidStep(Run(s, evs[..n]).value, evs[n], w);
    }
  }

  /** Whatever happened before, once the requests stop at most twelve more sessions begin before the
      wrapper is done with its worker. */
  lemma {:induction false} TwelveSessionsAtMost(init: Sys, before: seq<Event>, evs: seq<Event>, w: WorkerId)
    requires Initial(init) && Run(init, before).Some? && Run(Run(init, before).value, evs).Some?
    requires w in Run(init, before).value.workers && Stays(evs, w) && Requests(evs) == 0
    ensures Sessions(evs, w) <= 12
  {
    RunIsSafe(init, before);
    var s := Run(init, before).value;
    SessionsArePaid(s, evs, w);
    PotentialBound(s.slot, s.workers[w]);
  }

  // ----- between two questions to the slot -----

  /** The event calls `mark_idle_or_continue`. */
  ghost predicate AsksSlot(s: Sys, e: Event)
  {
    e.Conclude? && e.w in s.workers &&
    (s.workers[e.w].phase == Ended(Done) ||
     (s.workers[e.w].phase.Weighed? && !(s.workers[e.w].phase.remainder && !s.workers[e.w].drained)))
  }

  /** No event of the stretch asks the slot. */
  ghost predicate IsGap(s: Sys, evs: seq<Event>)
  {
    evs == [] ||
    (IsGap(s, evs[..|evs| - 1]) &&
     (Run(s, evs[..|evs| - 1]).Some? ==> !AsksSlot(Run(s, evs[..|evs| - 1]).value, evs[|evs| - 1])))
  }

  /** Sessions left in the gap, the forced drain included. */
  function GapBudget(k: Worker): nat
  {
    GapLeft(k) + DrainLeft(k)
  }

  lemma GapStep(s: Sys, e: Event, w: WorkerId)
    requires Exclusive(s) && Enabled(s, e) && w in s.workers && !EndsWrapper(e, w) && !AsksSlot(s, e)
    ensures w in Apply(s, e).workers
    ensures var k, k' := s.workers[w], Apply(s, e).workers[w];
            && (k.drained ==> k'.drained)
            && GapBudget(k') + (if e == Begin(w) then 1 else 0) <= GapBudget(k)
            && (k'.drained == k.drained ==> GapLeft(k') + (if e == Begin(w) then 1 else 0) <= GapLeft(k))
  {
    StaysOneStep(s, e, w);
    if Actor(e) != Some(w) {
      OthersStay(s, e);
    } else if InsideSession(e) {
      SessionLeavesCounters(s, e);
    } else if e.Conclude? {
      assert Apply(s, e) == ConcludeStep(s, w);
    }
  }

  lemma {:induction false} GapRun(s: Sys, evs: seq<Event>, w: WorkerId)
    requires Exclusive(s) && Run(s, evs).Some? && w in s.workers && Stays(evs, w) && IsGap(s, evs)
    ensures w in Run(s, evs).value.workers
    ensures var k, k' := s.workers[w], Run(s, evs).value.workers[w];
            && (k.drained ==> k'.drained)
            && Sessions(evs, w) + GapBudget(k') <= GapBudget(k)
            && (k'.drained == k.drained ==> Sessions(evs, w) + GapLeft(k') <= GapLeft(k))
  {
    if evs == [] {
    } else {
      var n := |evs| - 1;
      GapRun(s, evs[..n], w);
      ExclusiveRun(s, evs[..n]);
      GapStep(Run(s, evs[..n]).value, evs[n], w);
    }
  }

  /** At most six sessions run between two questions to the slot, and more than three only in the gap
      that spends the one forced drain. */
  lemma {:induction false} GapSessions(s: Sys, evs: seq<Event>, w: WorkerId)
    requires Exclusive(s) && Run(s, evs).Some? && w in s.workers && Stays(evs, w) && IsGap(s, evs)
    ensures Sessions(evs, w) <= 6
    ensures w in Run(s, evs).value.workers
    ensures 3 < Sessions(evs, w) ==> !s.workers[w].drained && Run(s, evs).value.workers[w].drained
  {
    GapRun(s, evs, w);
  }

  /** Once set, the drain mark stays for the worker's life. */
  lemma {:induction false} DrainedForLife(s: Sys, evs: seq<Event>, w: WorkerId)
    requires Run(s, evs).Some? && w in s.workers && Stays(evs, w) && s.workers[w].drained
    ensures w in Run(s, evs).value.workers && Run(s, evs).value.workers[w].drained
  {
    if evs == [] {
    } else {
      var n := |evs| - 1;
      DrainedForLife(s, evs[..n], w);
      StaysOneStep(Run(s, evs[..n]).value, evs[n], w);
    }
  }

  /** Of two gaps of one worker, at most one is longer than three sessions. */
  lemma {:induction false} LongGapOnlyOnce(s: Sys, gap1: seq<Event>, between: seq<Event>, gap2: seq<Event>, w: WorkerId)
    requires Exclusive(s) && w in s.workers
    requires Run(s, gap1).Some? && IsGap(s, gap1) && Stays(gap1, w)
    requires var t := Run(s, gap1).value; Run(t, between).Some? && Stays(between, w)
    requires var u := Run(Run(s, gap1).value, between).value;
             w in u.workers && Run(u, gap2).Some? && IsGap(u, gap2) && Stays(gap2, w)
    ensures Sessions(gap1, w) <= 3 || Sessions(gap2, w) <= 3
  {
    GapSessions(s, gap1, w);
    var t := Run(s, gap1).value;
    if 3 < Sessions(gap1, w) {
      ExclusiveRun(s, gap1);
      ExclusiveRun(t, between);
      DrainedForLife(t, between, w);
      GapSessions(Run(t, between).value, gap2, w);
    }
  }
}
