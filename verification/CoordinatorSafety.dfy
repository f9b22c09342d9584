/** What every run of the coordinator keeps: one live worker, the concept budget, provenance of
    references, the meaning of the pending request, and the data a worker carries between awaits. */
module CoordinatorSafety {
  import opened Wrappers
  import opened Sequences
  import opened Storage
  import opened RebuildSlots
  import opened CoordinatorModel
  import InputBuilder

  // ----- one live worker -----

  /** `running` is up exactly when some worker is live, and no two are. */
  ghost predicate Exclusive(s: Sys)
  {
    && (forall u, v :: u in s.workers && v in s.workers && Live(s.workers[u]) && Live(s.workers[v]) ==> u == v)
    && (s.slot.running <==> exists w :: w in s.workers && Live(s.workers[w]))
  }

  ghost function LiveSet(s: Sys): set<WorkerId>
  {
    set w | w in s.workers && Live(s.workers[w])
  }

  /** The worker an event belongs to, when it is a step of an existing worker. */
  function Actor(e: Event): Option<WorkerId>
  {
    match e
    case Tick(_) => None
    case InsertRaw(_) => None
    case NotifyAppend(_) => None
    case RequestManual(_, _) => None
    case _ => Some(e.w)
  }

  /** Everything but a wrapper finding its worker returned is the step of a live worker. */
  lemma ActorIsLive(s: Sys, e: Event)
    requires Enabled(s, e) && Actor(e).Some?
    ensures Actor(e).value in s.workers
    ensures e.Leave? <==> !Live(s.workers[Actor(e).value])
  {
  }

  /** A worker's step moves no other worker. */
  lemma OthersStay(s: Sys, e: Event)
    requires Enabled(s, e)
    ensures forall u :: u in s.workers && Actor(e) != Some(u) ==>
              u in Apply(s, e).workers && Apply(s, e).workers[u] == s.workers[u]
    ensures forall u :: u in Apply(s, e).workers && u !in s.workers ==>
              (e.NotifyAppend? || e.RequestManual?) && u == e.w
  {
  }

  /** A live worker's step keeps the flag up exactly as long as it stays live. */
  lemma FlagFollowsActor(s: Sys, e: Event)
    requires Enabled(s, e) && Actor(e).Some? && !e.Leave? && s.slot.running
    ensures var t := Apply(s, e); t.slot.running <==> e.w in t.workers && Live(t.workers[e.w])
  {
  }

  lemma FlagFollowsClaim(s: Sys, e: Event)
    requires Enabled(s, e) && Actor(e).None?
    ensures var t := Apply(s, e);
            if (e.NotifyAppend? || e.RequestManual?) && !s.slot.running
            then t.slot.running && e.w in t.workers && Live(t.workers[e.w]) && t.workers - {e.w} == s.workers
            else t.slot.running == s.slot.running && t.workers == s.workers
  {
  }

  lemma ExclusiveAfterActor(s: Sys, t: Sys, w: WorkerId)
    requires Exclusive(s) && w in s.workers && Live(s.workers[w])
    requires forall u :: u in s.workers && u != w ==> u in t.workers && t.workers[u] == s.workers[u]
    requires forall u :: u in t.workers ==> u in s.workers
    requires t.slot.running <==> w in t.workers && Live(t.workers[w])
    ensures Exclusive(t)
  {
  }

  lemma ExclusiveStep(s: Sys, e: Event)
    requires Exclusive(s) && Enabled(s, e)
    ensures Exclusive(Apply(s, e))
  {
    OthersStay(s, e);
    if Actor(e).Some? {
      ActorIsLive(s, e);
      if e.Leave? {
        assert Apply(s, e).slot == s.slot;
      } else {
        FlagFollowsActor(s, e);
        ExclusiveAfterActor(s, Apply(s, e), e.w);
      }
    } else {
      FlagFollowsClaim(s, e);
    }
  }

  // ----- the pending request -----

  /** The slot stores exactly what its requests add up to. */
  ghost predicate PendingMeans(s: Sys)
  {
    s.slot.manualPending == PendingOf(s.asked)
  }

  lemma PendingStep(s: Sys, e: Event)
    requires PendingMeans(s) && Enabled(s, e)
    ensures PendingMeans(Apply(s, e))
  {
    if e.RequestManual? {
      MergeIsPendingOf(s.asked, e.concept);
    }
  }

  /** A pending request leaves only as the mode of the session that takes it, or in a forced idle. */
  lemma PendingLeaves(s: Sys, e: Event)
    requires PendingMeans(s) && Enabled(s, e)
    requires s.slot.manualPending.Some? && Apply(s, e).slot.manualPending.None?
    ensures e.ForceIdle? ||
            (e.Conclude? && Apply(s, e).workers[e.w].phase == Head(s.slot.manualPending.value))
  {
    if e.RequestManual? {
      MergeIsPendingOf(s.asked, e.concept);
    }
  }

  // ----- what a worker carries between awaits -----

  /** What only grows while the wikis stand still. */
  ghost predicate Grows(s: Sys, t: Sys)
  {
    && s.owner == t.owner && s.clock <= t.clock
    && (forall r :: r in s.raws ==> r in t.raws)
    && s.absorbed <= t.absorbed && s.viaManual <= t.viaManual && s.extracted <= t.extracted
  }

  /** The shared data and its history variables; a session that only reads leaves them alone. */
  ghost predicate SameData(s: Sys, t: Sys)
  {
    && t.owner == s.owner && t.clock == s.clock && t.raws == s.raws && t.wikis == s.wikis
    && t.absorbed == s.absorbed && t.viaManual == s.viaManual
  }

  lemma ReadingKeeps(s: Sys, e: Event)
    requires Enabled(s, e) && (e.Begin? || e.ReadClock? || e.ReadWatermark? || e.ListRaws? || e.Survey? || e.Extract?)
    ensures var t := Apply(s, e); SameData(s, t) && t.slot == s.slot && s.extracted <= t.extracted
  {
  }

  lemma TaskKeeps(s: Sys, e: Event)
    requires Enabled(s, e) && (e.Load? || e.Gather? || e.Abandon? || e.FinishIteration?)
    ensures var t := Apply(s, e); SameData(s, t) && t.slot == s.slot && s.extracted == t.extracted
  {
  }

  lemma ChoosingKeeps(s: Sys, e: Event)
    requires Enabled(s, e) && e.Choose?
    ensures var t := Apply(s, e); SameData(s, t) && t.slot == s.slot && s.extracted == t.extracted
  {
  }

  lemma LeavingKeeps(s: Sys, e: Event)
    requires Enabled(s, e) && (e.Lookup? || e.Fail? || e.Crash? || e.Leave?)
    ensures var t := Apply(s, e); SameData(s, t) && t.slot == s.slot && s.extracted == t.extracted
  {
  }

  lemma SlotKeeps(s: Sys, e: Event)
    requires Enabled(s, e)
    requires e.NotifyAppend? || e.RequestManual? || e.Conclude? || e.Release? || e.ForceIdle?
    ensures var t := Apply(s, e); SameData(s, t) && s.extracted == t.extracted
  {
  }

  /** Only the events that own a piece of the data change it. */
  lemma StepGrows(s: Sys, e: Event)
    requires Enabled(s, e)
    ensures Grows(s, Apply(s, e))
    ensures !e.Upsert? ==> Apply(s, e).wikis == s.wikis && Apply(s, e).absorbed == s.absorbed
    ensures !e.InsertRaw? ==> Apply(s, e).raws == s.raws
  {
    match e
    case Tick(_) =>
    case InsertRaw(_) =>
    case Upsert(_, _, _, _) =>
    case Begin(_) => ReadingKeeps(s, e);
    case ReadClock(_) => ReadingKeeps(s, e);
    case ReadWatermark(_) => ReadingKeeps(s, e);
    case ListRaws(_) => ReadingKeeps(s, e);
    case Survey(_) => ReadingKeeps(s, e);
    case Extract(_, _) => ReadingKeeps(s, e);
    case Load(_, _) => TaskKeeps(s, e);
    case Gather(_, _, _) => TaskKeeps(s, e);
    case Abandon(_, _) => TaskKeeps(s, e);
    case FinishIteration(_) => TaskKeeps(s, e);
    case Choose(_) => ChoosingKeeps(s, e);
    case Lookup(_, _, _) => LeavingKeeps(s, e);
    case Fail(_) => LeavingKeeps(s, e);
    case Crash(_) => LeavingKeeps(s, e);
    case Leave(_) => LeavingKeeps(s, e);
    case _ => SlotKeeps(s, e);
  }

  ghost predicate AllMine(s: Sys, rs: seq<Raw>)
  {
    forall r :: r in rs ==> r in s.raws && Mine(s, r)
  }

  /** Every reference names a stored raw of this owner. */
  ghost predicate OwnRefs(s: Sys, refs: seq<string>)
  {
    forall id :: id in refs ==> exists r :: r in s.raws && Mine(s, r) && r.id == id
  }

  ghost predicate TaskOk(s: Sys, task: Task)
  {
    (task.Loaded? ==> OwnRefs(s, task.refs)) && (task.Built? ==> AllMine(s, task.inputs))
  }

  ghost predicate StampedBefore(s: Sys, at: int)
  {
    forall c :: c in s.wikis ==> s.wikis[c].lastRebuiltAt <= at
  }

  ghost predicate Accounted(s: Sys, mode: Mode, p: Point)
    requires p.Synthesizing?
  {
    RawIds(p.newRaws) <= s.absorbed && (mode.Manual? ==> RawIds(p.newRaws) <= s.viaManual)
  }

  ghost predicate PointOk(s: Sys, mode: Mode, p: Point)
  {
    && (!p.Opening? ==> 0 <= p.startedAt <= s.clock && StampedBefore(s, p.startedAt))
    && (p.Marked? || p.Listed? || p.Surveyed? || p.Extracted? ==> p.watermark == Watermark(s.wikis))
    && (p.Listed? || p.Surveyed? || p.Extracted? || p.Synthesizing? ==> AllMine(s, p.newRaws))
    && (p.Surveyed? || p.Extracted? ==> p.existing == s.wikis.Keys)
    && (p.Extracted? || (p.Synthesizing? && mode.Append?) ==> RawIds(p.newRaws) <= s.extracted)
    && (p.Synthesizing? ==>
          && |p.tasks.Keys + s.wikis.Keys| <= CONCEPT_LIMIT_PER_OWNER
          && (forall c :: c in p.tasks ==> TaskOk(s, p.tasks[c]))
          && (Watermark(s.wikis) == p.watermark || (Watermark(s.wikis) == p.startedAt && Accounted(s, mode, p))))
  }

  /** A manual mode survives only the first iteration, so the loop never runs past its cap. */
  ghost predicate PhaseOk(s: Sys, phase: Phase)
  {
    phase.Session? ==>
      && 1 <= phase.iteration <= MAX_ITERATIONS
      && (phase.mode.Manual? ==> phase.iteration == 1)
      && PointOk(s, phase.mode, phase.point)
  }

  ghost predicate DataOk(s: Sys)
  {
    && UniqueIds(s.raws)
    && (forall r :: r in s.raws ==> 0 < r.createdAt <= s.clock)
    && (forall c :: c in s.wikis ==> 0 <= s.wikis[c].lastRebuiltAt <= s.clock && OwnRefs(s, s.wikis[c].sourceRefs))
    && |s.wikis| <= CONCEPT_LIMIT_PER_OWNER
    && s.absorbed <= RawIds(s.raws)
  }

  ghost predicate Safe(s: Sys)
  {
    && 0 <= s.clock
    && Exclusive(s) && PendingMeans(s) && DataOk(s)
    && forall w :: w in s.workers ==> PhaseOk(s, s.workers[w].phase)
  }

  // ----- frames -----

  lemma FrameRefs(s: Sys, t: Sys, refs: seq<string>)
    requires Grows(s, t) && OwnRefs(s, refs)
    ensures OwnRefs(t, refs)
  {
    forall id | id in refs ensures exists r :: r in t.raws && Mine(t, r) && r.id == id {
      var r :| r in s.raws && Mine(s, r) && r.id == id;
      assert r in t.raws && Mine(t, r);
    }
  }

  lemma FrameTask(s: Sys, t: Sys, task: Task)
    requires Grows(s, t) && TaskOk(s, task)
    ensures TaskOk(t, task)
  {
    if task.Loaded? { FrameRefs(s, t, task.refs); }
  }

  lemma FramePoint(s: Sys, t: Sys, mode: Mode, p: Point)
    requires Grows(s, t) && t.wikis == s.wikis && PointOk(s, mode, p)
    ensures PointOk(t, mode, p)
  {
    if p.Synthesizing? {
      forall c | c in p.tasks ensures TaskOk(t, p.tasks[c]) { FrameTask(s, t, p.tasks[c]); }
    }
  }

  lemma FrameWikis(s: Sys, t: Sys)
    requires Grows(s, t) && t.wikis == s.wikis && DataOk(s)
    ensures forall c :: c in t.wikis ==>
              0 <= t.wikis[c].lastRebuiltAt <= t.clock && OwnRefs(t, t.wikis[c].sourceRefs)
  {
    forall c | c in t.wikis ensures OwnRefs(t, t.wikis[c].sourceRefs) {
      FrameRefs(s, t, s.wikis[c].sourceRefs);
    }
  }

  // ----- the budget -----

  lemma SetOfSeq(xs: seq<string>)
    ensures |set x | x in xs| <= |xs|
  {
    if xs == [] {
    } else {
      SetOfSeq(xs[1..]);
      assert (set x | x in xs) == {xs[0]} + set x | x in xs[1..];
    }
  }

  lemma CardUnion(a: set<string>, b: set<string>)
    ensures |a + b| <= |a| + |b|
  {
    assert a + b == a + (b - a);
    assert b == (b - a) + (a * b);
  }

  /** Whatever the extractor answers, the chosen concepts fit the budget. */
  lemma AppendWithinBudget(reply: Reply, existing: set<string>)
    requires |existing| <= CONCEPT_LIMIT_PER_OWNER
    ensures |AppendAffected(reply, existing, |existing|) + existing| <= CONCEPT_LIMIT_PER_OWNER
  {
    var room := CONCEPT_LIMIT_PER_OWNER - |existing|;
    var valid := KeepValid(reply.newConcepts);
    var added := if |valid| <= room then valid else valid[..room];
    SetOfSeq(added);
    var aff := AppendAffected(reply, existing, |existing|);
    assert aff + existing == existing + set c | c in added;
    CardUnion(existing, set c | c in added);
  }

  // ----- the watermark -----

  /** Writing a row at a time no earlier than every other makes that time the watermark. */
  lemma WatermarkOfUpsert(wikis: map<string, Wiki>, c: string, row: Wiki)
    requires forall d :: d in wikis ==> wikis[d].lastRebuiltAt <= row.lastRebuiltAt
    ensures Watermark(wikis[c := row]) == row.lastRebuiltAt
  {
    var after := wikis[c := row];
    assert c in after && after != map[];
    var d :| d in after && after[d].lastRebuiltAt == Watermark(after);
  }

  // ----- one step -----

  lemma ChooseOk(s: Sys, w: WorkerId)
    requires Enabled(s, Choose(w)) && PhaseOk(s, s.workers[w].phase) && |s.wikis| <= CONCEPT_LIMIT_PER_OWNER
    ensures PhaseOk(ChooseStep(s, w), ChooseStep(s, w).workers[w].phase)
  {
    var p := PointOf(s, w);
    match ModeOf(s, w) {
      case Append =>
        if p.Extracted? {
          AppendWithinBudget(p.reply, p.existing);
          EnterOk(s, w, AppendAffected(p.reply, p.existing, |s.wikis|));
        }
      case Manual(Some(c)) =>
        if c in p.existing || |s.wikis| < CONCEPT_LIMIT_PER_OWNER {
          if c in p.existing { assert {c} + s.wikis.Keys == s.wikis.Keys; } else { CardUnion({c}, s.wikis.Keys); }
          EnterOk(s, w, {c});
        }
      case Manual(None) =>
        assert p.existing + s.wikis.Keys == s.wikis.Keys;
        EnterOk(s, w, p.existing);
    }
  }

  lemma EnterOk(s: Sys, w: WorkerId, affected: set<string>)
    requires InSession(s, w) && (PointOf(s, w).Surveyed? || PointOf(s, w).Extracted?)
    requires PhaseOk(s, s.workers[w].phase)
    requires ModeOf(s, w).Append? ==> PointOf(s, w).Extracted?
    requires |affected + s.wikis.Keys| <= CONCEPT_LIMIT_PER_OWNER
    ensures PhaseOk(Enter(s, w, affected), Enter(s, w, affected).workers[w].phase)
  {
    if affected != {} {
      var p := PointOf(s, w);
      var q := Synthesizing(p.startedAt, p.watermark, p.newRaws, map c | c in affected :: Waiting);
      assert q.tasks.Keys == affected;
      assert PointOk(s, ModeOf(s, w), q);
      FramePoint(s, Enter(s, w, affected), ModeOf(s, w), q);
    }
  }

  /** Lookup by id alone still finds only this owner's raws: ids are unique and the references are its own. */
  lemma {:induction false} GatherOk(s: Sys, w: WorkerId, c: string, ranked: seq<Raw>)
    requires DataOk(s) && Enabled(s, Gather(w, c, ranked)) && PhaseOk(s, s.workers[w].phase)
    ensures AllMine(s, InputBuilder.Inputs(s.raws, TaskOf(s, w, c).refs, PointOf(s, w).newRaws, ranked))
  {
    var p, task := PointOf(s, w), TaskOf(s, w, c);
    assert TaskOk(s, task);
    InputBuilder.InputsFromSources(s.raws, task.refs, p.newRaws, ranked);
    forall r | r in InputBuilder.Inputs(s.raws, task.refs, p.newRaws, ranked)
      ensures r in s.raws && Mine(s, r)
    {
      if r in s.raws && r.id in task.refs {
        var own :| own in s.raws && Mine(s, own) && own.id == r.id;
        assert own == r;
      }
    }
  }

  lemma TaskStep(s: Sys, w: WorkerId, c: string, task: Task)
    requires HasTask(s, w, c) && TaskOk(s, task) && PhaseOk(s, s.workers[w].phase)
    ensures PhaseOk(SetTask(s, w, c, task), SetTask(s, w, c, task).workers[w].phase)
  {
    var t := SetTask(s, w, c, task);
    FramePoint(s, t, ModeOf(s, w), PointOf(s, w));
    assert PointOf(t, w).tasks.Keys == PointOf(s, w).tasks.Keys;
  }

  /** A step of `w` other than writing a row leaves `w` with sound data. */
  lemma ActorStep(s: Sys, e: Event)
    requires DataOk(s) && 0 <= s.clock && Enabled(s, e) && Actor(e).Some? && !e.Upsert?
    requires PhaseOk(s, s.workers[e.w].phase)
    ensures e.w in Apply(s, e).workers ==> PhaseOk(Apply(s, e), Apply(s, e).workers[e.w].phase)
  {
    match e {
      case Choose(w) => ChooseOk(s, w);
      case Load(w, c) => TaskStep(s, w, c, Loaded(if c in s.wikis then s.wikis[c].sourceRefs else []));
      case Gather(w, c, ranked) =>
        GatherOk(s, w, c, ranked);
        TaskStep(s, w, c, Built(InputBuilder.Inputs(s.raws, TaskOf(s, w, c).refs, PointOf(s, w).newRaws, ranked)));
      case Abandon(w, c) => TaskStep(s, w, c, Finished);
      case _ => if IsRead(e) { ReadStep(s, e); } else { ControlStep(s, e); }
    }
  }

  predicate IsRead(e: Event)
  {
    e.ReadClock? || e.ReadWatermark? || e.ListRaws? || e.Survey? || e.Extract?
  }

  lemma ReadSound(s: Sys, mode: Mode, p: Point)
    requires DataOk(s) && 0 <= s.clock && PointOk(s, mode, p)
    ensures PointOk(s, mode, AfterRead(s, p))
  {
    if p.Marked? {
      assert forall r :: InWindow(r, Personal, s.owner, p.watermark, p.startedAt) ==> Mine(s, r);
    }
  }

  /** Each read adds to the point exactly what the database says now. */
  lemma ReadStep(s: Sys, e: Event)
    requires DataOk(s) && 0 <= s.clock && Enabled(s, e) && IsRead(e) && PhaseOk(s, s.workers[e.w].phase)
    ensures PhaseOk(Apply(s, e), Apply(s, e).workers[e.w].phase)
  {
    StepGrows(s, e);
    var p, mode := PointOf(s, e.w), ModeOf(s, e.w);
    ReadSound(s, mode, p);
    FramePoint(s, Apply(s, e), mode, if e.Extract? then p else AfterRead(s, p));
  }

  lemma OpenStep(s: Sys, e: Event)
    requires Enabled(s, e) && (e.Begin? || e.FinishIteration?)
    requires PhaseOk(s, s.workers[e.w].phase)
    ensures e.w in Apply(s, e).workers && PhaseOk(Apply(s, e), Apply(s, e).workers[e.w].phase)
  {
  }

  /** The remaining steps start an iteration or leave the session. */
  lemma ControlStep(s: Sys, e: Event)
    requires Enabled(s, e) && Actor(e).Some? && PhaseOk(s, s.workers[e.w].phase)
    requires !IsRead(e) && !e.Upsert? && !e.Choose? && !e.Load? && !e.Gather? && !e.Abandon?
    ensures e.w in Apply(s, e).workers ==> PhaseOk(Apply(s, e), Apply(s, e).workers[e.w].phase)
  {
    if e.Begin? || e.FinishIteration? { OpenStep(s, e); }
  }

  lemma UpsertRefs(s: Sys, w: WorkerId, c: string, content: string, refs: seq<string>)
    requires Enabled(s, Upsert(w, c, content, refs)) && TaskOk(s, TaskOf(s, w, c))
    ensures OwnRefs(s, KeepIds(refs, RawIds(TaskOf(s, w, c).inputs)))
  {
    forall id | id in KeepIds(refs, RawIds(TaskOf(s, w, c).inputs))
      ensures exists r :: r in s.raws && Mine(s, r) && r.id == id
    {
      var r :| r in TaskOf(s, w, c).inputs && r.id == id;
      assert r in s.raws && Mine(s, r);
    }
  }

  /** Writing a row keeps the table sound and within budget. */
  lemma UpsertData(s: Sys, w: WorkerId, c: string, content: string, refs: seq<string>)
    requires DataOk(s) && Enabled(s, Upsert(w, c, content, refs)) && PhaseOk(s, s.workers[w].phase)
    ensures DataOk(UpsertStep(s, w, c, content, refs))
  {
    var t := UpsertStep(s, w, c, content, refs);
    assert TaskOk(s, TaskOf(s, w, c));
    UpsertCounts(s, w, c, content, refs);
    UpsertAbsorbs(s, w, c, content, refs);
    UpsertRefs(s, w, c, content, refs);
    StepGrows(s, Upsert(w, c, content, refs));
    UpsertRows(s, t, c);
  }

  lemma UpsertCounts(s: Sys, w: WorkerId, c: string, content: string, refs: seq<string>)
    requires Enabled(s, Upsert(w, c, content, refs)) && PhaseOk(s, s.workers[w].phase)
    ensures |UpsertStep(s, w, c, content, refs).wikis| <= CONCEPT_LIMIT_PER_OWNER
  {
    var p, t := PointOf(s, w), UpsertStep(s, w, c, content, refs);
    assert t.wikis.Keys == s.wikis.Keys + {c};
    CardSubset(t.wikis.Keys, p.tasks.Keys + s.wikis.Keys);
  }

  lemma UpsertAbsorbs(s: Sys, w: WorkerId, c: string, content: string, refs: seq<string>)
    requires Enabled(s, Upsert(w, c, content, refs)) && PhaseOk(s, s.workers[w].phase)
    requires s.absorbed <= RawIds(s.raws)
    ensures UpsertStep(s, w, c, content, refs).absorbed <= RawIds(s.raws)
  {
    assert AllMine(s, PointOf(s, w).newRaws);
  }

  lemma UpsertRows(s: Sys, t: Sys, c: string)
    requires DataOk(s) && Grows(s, t) && c in t.wikis && t.wikis - {c} == s.wikis - {c}
    requires 0 <= t.wikis[c].lastRebuiltAt <= t.clock && OwnRefs(s, t.wikis[c].sourceRefs)
    ensures forall d :: d in t.wikis ==>
              0 <= t.wikis[d].lastRebuiltAt <= t.clock && OwnRefs(t, t.wikis[d].sourceRefs)
  {
    forall d | d in t.wikis
      ensures 0 <= t.wikis[d].lastRebuiltAt <= t.clock && OwnRefs(t, t.wikis[d].sourceRefs)
    {
      if d != c { assert d in t.wikis - {c} && d in s.wikis && t.wikis[d] == s.wikis[d]; }
      FrameRefs(s, t, t.wikis[d].sourceRefs);
    }
  }

  /** Writing a row makes the iteration's start time the watermark. */
  lemma UpsertWatermark(s: Sys, w: WorkerId, c: string, content: string, refs: seq<string>)
    requires Enabled(s, Upsert(w, c, content, refs)) && PhaseOk(s, s.workers[w].phase)
    ensures Watermark(UpsertStep(s, w, c, content, refs).wikis) == PointOf(s, w).startedAt
    ensures StampedBefore(UpsertStep(s, w, c, content, refs), PointOf(s, w).startedAt)
  {
    WatermarkOfUpsert(s.wikis, c, UpsertStep(s, w, c, content, refs).wikis[c]);
  }

  lemma UpsertTasks(s: Sys, w: WorkerId, c: string, content: string, refs: seq<string>)
    requires Enabled(s, Upsert(w, c, content, refs)) && PhaseOk(s, s.workers[w].phase)
    ensures var t := UpsertStep(s, w, c, content, refs);
            var q := PointOf(t, w);
            && q == PointOf(s, w).(tasks := PointOf(s, w).tasks[c := Finished])
            && (forall d :: d in q.tasks ==> TaskOk(t, q.tasks[d]))
            && |q.tasks.Keys + t.wikis.Keys| <= CONCEPT_LIMIT_PER_OWNER
  {
    var p, t := PointOf(s, w), UpsertStep(s, w, c, content, refs);
    var q := PointOf(t, w);
    assert q.tasks.Keys + t.wikis.Keys == p.tasks.Keys + s.wikis.Keys;
    StepGrows(s, Upsert(w, c, content, refs));
    forall d | d in q.tasks ensures TaskOk(t, q.tasks[d]) {
      if d != c {
        assert TaskOk(s, p.tasks[d]);
        FrameTask(s, t, p.tasks[d]);
      }
    }
  }

  /** ... and leaves the writer's own data sound. */
  lemma UpsertPhase(s: Sys, w: WorkerId, c: string, content: string, refs: seq<string>)
    requires Enabled(s, Upsert(w, c, content, refs)) && PhaseOk(s, s.workers[w].phase)
    ensures PhaseOk(UpsertStep(s, w, c, content, refs), UpsertStep(s, w, c, content, refs).workers[w].phase)
  {
    UpsertWatermark(s, w, c, content, refs);
    UpsertTasks(s, w, c, content, refs);
    StepGrows(s, Upsert(w, c, content, refs));
    var t := UpsertStep(s, w, c, content, refs);
    assert Accounted(t, ModeOf(t, w), PointOf(t, w));
    assert AllMine(t, PointOf(t, w).newRaws);
    assert PointOk(t, ModeOf(t, w), PointOf(t, w));
  }

  lemma DataStep(s: Sys, e: Event)
    requires Safe(s) && Enabled(s, e) && !e.Upsert?
    ensures DataOk(Apply(s, e))
  {
    StepGrows(s, e);
    FrameWikis(s, Apply(s, e));
    if e.InsertRaw? { assert UniqueIds(Insert(s.raws, e.raw)); }
  }

  /** Every worker the event does not move keeps sound data: it is either untouched by the frame or
      already returned. */
  lemma BystanderStep(s: Sys, e: Event, u: WorkerId)
    requires Safe(s) && Enabled(s, e) && u in s.workers && Actor(e) != Some(u)
    ensures PhaseOk(Apply(s, e), s.workers[u].phase)
  {
    StepGrows(s, e);
    if s.workers[u].phase.Session? {
      if Actor(e).Some? { ActorIsLive(s, e); }
      FramePoint(s, Apply(s, e), s.workers[u].phase.mode, s.workers[u].phase.point);
    }
  }

  lemma {:induction false} SafeStep(s: Sys, e: Event)
    requires Safe(s) && Enabled(s, e)
    ensures Safe(Apply(s, e))
  {
    ExclusiveStep(s, e);
    PendingStep(s, e);
    StepGrows(s, e);
    if e.Upsert? {
      UpsertData(s, e.w, e.c, e.content, e.refs);
      UpsertPhase(s, e.w, e.c, e.content, e.refs);
    } else {
      DataStep(s, e);
      if Actor(e).Some? { assert PhaseOk(s, s.workers[e.w].phase); ActorStep(s, e); }
    }
    var t := Apply(s, e);
    OthersStay(s, e);
    forall u | u in t.workers ensures PhaseOk(t, t.workers[u].phase) {
      if u in s.workers && Actor(e) != Some(u) {
        BystanderStep(s, e, u);
      }
    }
  }
}
