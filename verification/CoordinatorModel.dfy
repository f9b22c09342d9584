/** The rebuild coordinator of one owner as a labelled transition system.

    Every `await` of a worker ends one step, so any interleaving of requests, inserts, workers and
    wrapper epilogues is a sequence of events. Replies of the language models, search ranking,
    failures and panics are event arguments: the environment chooses them freely. */
module CoordinatorModel {
  import opened Wrappers
  import opened Storage
  import opened RebuildSlots
  import InputBuilder

  const MAX_ITERATIONS := 10
  const CONCEPT_LIMIT_PER_OWNER := 200
  const CONCEPT_CONCURRENCY := 4
  const MAX_CONSECUTIVE_CAPS := 3

  type WorkerId = nat

  datatype Outcome = Done | DrainCapped

  /** What the extractor answers; nothing in it is trusted. */
  datatype Reply = Reply(affectedExisting: seq<string>, newConcepts: seq<string>)

  /** One `synthesize_one`: not started, wiki row read, inputs built, over. */
  datatype Task = Waiting | Loaded(refs: seq<string>) | Built(inputs: seq<Raw>) | Finished

  /** How far the current iteration has come. */
  datatype Point =
    | Opening
    | Clocked(startedAt: int)
    | Marked(startedAt: int, watermark: int)
    | Listed(startedAt: int, watermark: int, newRaws: seq<Raw>)
    | Surveyed(startedAt: int, watermark: int, newRaws: seq<Raw>, existing: set<string>)
    | Extracted(startedAt: int, watermark: int, newRaws: seq<Raw>, existing: set<string>, reply: Reply)
    | Synthesizing(startedAt: int, watermark: int, newRaws: seq<Raw>, tasks: map<string, Task>)

  datatype Phase =
    | Head(mode: Mode)                                       // a session in `mode` comes next
    | Session(mode: Mode, iteration: nat, point: Point)
    | Ended(outcome: Outcome)                                // run_session returned Ok
    | Weighed(remainder: bool)                               // the cap streak's leftover lookup is in
    | Returned                                               // run_worker returned Ok
    | Failed                                                 // run_worker returned Err
    | Broken                                                 // panic or join error

  datatype Worker = Worker(phase: Phase, caps: nat, drained: bool)

  /** Shared state first, then history that no step reads: `absorbed` holds the raws listed by an
      iteration that wrote a wiki (`viaManual` when that iteration was manual), `extracted` the raws
      of successful extracts, `asked` the manual requests merged into the slot since it was last
      emptied. */
  datatype Sys = Sys(
    owner: string, clock: int, raws: seq<Raw>, wikis: map<string, Wiki>, slot: Slot,
    workers: map<WorkerId, Worker>,
    absorbed: set<string>, viaManual: set<string>, extracted: set<string>,
    asked: seq<Option<string>>)

  datatype Event =
    | Tick(now: int)
    | InsertRaw(raw: Raw)
    | NotifyAppend(w: WorkerId)
    | RequestManual(w: WorkerId, concept: Option<string>)
    | Begin(w: WorkerId)
    | ReadClock(w: WorkerId)
    | ReadWatermark(w: WorkerId)
    | ListRaws(w: WorkerId)
    | Survey(w: WorkerId)
    | Extract(w: WorkerId, reply: Reply)
    | Choose(w: WorkerId)
    | Load(w: WorkerId, c: string)
    | Gather(w: WorkerId, c: string, ranked: seq<Raw>)
    | Upsert(w: WorkerId, c: string, content: string, refs: seq<string>)
    | Abandon(w: WorkerId, c: string)
    | FinishIteration(w: WorkerId)
    | Lookup(w: WorkerId, until: int, failed: bool)
    | Conclude(w: WorkerId)
    | Fail(w: WorkerId)
    | Crash(w: WorkerId)
    | Release(w: WorkerId)
    | ForceIdle(w: WorkerId)
    | Leave(w: WorkerId)

  // ----- concept selection -----

  /** `^[a-z0-9][a-z0-9-]{1,63}$` */
  predicate ValidConcept(s: string)
  {
    2 <= |s| <= 64 && LowerAlnum(s[0]) && forall i :: 1 <= i < |s| ==> LowerAlnum(s[i]) || s[i] == '-'
  }

  predicate LowerAlnum(c: char)
  {
    'a' <= c <= 'z' || '0' <= c <= '9'
  }

  function KeepValid(cs: seq<string>): (r: seq<string>)
    ensures forall c :: c in r <==> c in cs && ValidConcept(c)
  {
    if cs == [] then []
    else
      assert forall c :: c in cs <==> c == cs[0] || c in cs[1..];
      if ValidConcept(cs[0]) then [cs[0]] + KeepValid(cs[1..]) else KeepValid(cs[1..])
  }

  /** Existing concepts named by the reply, plus new names up to the budget that is left. */
  function AppendAffected(reply: Reply, existing: set<string>, count: nat): set<string>
  {
    var room := if count < CONCEPT_LIMIT_PER_OWNER then CONCEPT_LIMIT_PER_OWNER - count else 0;
    var valid := KeepValid(reply.newConcepts);
    var added := if |valid| <= room then valid else valid[..room];
    (set c | c in KeepValid(reply.affectedExisting) && c in existing) + (set c | c in added)
  }

  // ----- slot ownership -----

  /** Claimed, executing, or failed but not yet released by its wrapper. */
  predicate Live(k: Worker)
  {
    !k.phase.Returned?
  }

  // ----- helpers of the step function -----

  ghost function Put(s: Sys, w: WorkerId, k: Worker): Sys
  {
    s.(workers := s.workers[w := k])
  }

  ghost function At(s: Sys, w: WorkerId, phase: Phase): Sys
    requires w in s.workers
  {
    Put(s, w, s.workers[w].(phase := phase))
  }

  /** The current point of a worker that is inside a session. */
  predicate InSession(s: Sys, w: WorkerId)
  {
    w in s.workers && s.workers[w].phase.Session?
  }

  function PointOf(s: Sys, w: WorkerId): Point
    requires InSession(s, w)
  {
    s.workers[w].phase.point
  }

  function ModeOf(s: Sys, w: WorkerId): Mode
    requires InSession(s, w)
  {
    s.workers[w].phase.mode
  }

  ghost function Move(s: Sys, w: WorkerId, p: Point): Sys
    requires InSession(s, w)
  {
    At(s, w, s.workers[w].phase.(point := p))
  }

  function Busy(tasks: map<string, Task>): set<string>
  {
    set c | c in tasks && (tasks[c].Loaded? || tasks[c].Built?)
  }

  predicate HasTask(s: Sys, w: WorkerId, c: string)
  {
    InSession(s, w) && PointOf(s, w).Synthesizing? && c in PointOf(s, w).tasks
  }

  function TaskOf(s: Sys, w: WorkerId, c: string): Task
    requires HasTask(s, w, c)
  {
    PointOf(s, w).tasks[c]
  }

  ghost function SetTask(s: Sys, w: WorkerId, c: string, t: Task): Sys
    requires HasTask(s, w, c)
  {
    Move(s, w, PointOf(s, w).(tasks := PointOf(s, w).tasks[c := t]))
  }

  predicate Mine(s: Sys, r: Raw)
  {
    r.scope == Personal && r.ownerId == s.owner
  }

  /** Raws above the watermark are left over after a streak of capped sessions. */
  ghost predicate Leftover(s: Sys, until: int)
  {
    ListSince(s.raws, Personal, s.owner, Watermark(s.wikis), until) != []
  }

  predicate AllFinished(tasks: map<string, Task>)
  {
    forall c :: c in tasks ==> tasks[c].Finished?
  }

  // ----- the step relation -----

  ghost predicate Enabled(s: Sys, e: Event)
  {
    match e
    case Tick(now) => s.clock <= now
    case InsertRaw(raw) => !HasId(s.raws, raw.id) && 0 < raw.createdAt <= s.clock
    case NotifyAppend(w) => w !in s.workers
    case RequestManual(w, _) => w !in s.workers
    case Begin(w) => w in s.workers && s.workers[w].phase.Head?
    case ReadClock(w) => InSession(s, w) && PointOf(s, w).Opening?
    case ReadWatermark(w) => InSession(s, w) && PointOf(s, w).Clocked?
    case ListRaws(w) => InSession(s, w) && PointOf(s, w).Marked?
    case Survey(w) => InSession(s, w) && PointOf(s, w).Listed?
    case Extract(w, _) =>
      InSession(s, w) && PointOf(s, w).Surveyed? && ModeOf(s, w).Append? && PointOf(s, w).newRaws != []
    case Choose(w) =>
      InSession(s, w) &&
      (PointOf(s, w).Extracted? ||
       (PointOf(s, w).Surveyed? && (ModeOf(s, w).Manual? || PointOf(s, w).newRaws == [])))
    case Load(w, c) =>
      HasTask(s, w, c) && TaskOf(s, w, c).Waiting? && |Busy(PointOf(s, w).tasks)| < CONCEPT_CONCURRENCY
    case Gather(w, c, ranked) =>
      HasTask(s, w, c) && TaskOf(s, w, c).Loaded? && forall r :: r in ranked ==> r in s.raws && Mine(s, r)
    case Upsert(w, c, _, _) => HasTask(s, w, c) && TaskOf(s, w, c).Built?
    case Abandon(w, c) => HasTask(s, w, c) && !TaskOf(s, w, c).Finished?
    case FinishIteration(w) =>
      InSession(s, w) && PointOf(s, w).Synthesizing? && AllFinished(PointOf(s, w).tasks)
    case Lookup(w, until, _) =>
      until <= s.clock && w in s.workers && s.workers[w].phase == Ended(DrainCapped) &&
      MAX_CONSECUTIVE_CAPS <= s.workers[w].caps + 1
    case Conclude(w) =>
      w in s.workers &&
      (s.workers[w].phase == Ended(Done) || s.workers[w].phase.Weighed?
       || (s.workers[w].phase == Ended(DrainCapped) && s.workers[w].caps + 1 < MAX_CONSECUTIVE_CAPS))
    case Fail(w) =>
      w in s.workers &&
      ((s.workers[w].phase.Session? && !PointOf(s, w).Opening? && !PointOf(s, w).Synthesizing?)
       || (s.workers[w].phase == Ended(DrainCapped) && MAX_CONSECUTIVE_CAPS <= s.workers[w].caps + 1))
    case Crash(w) =>
      w in s.workers && !s.workers[w].phase.Returned? && !s.workers[w].phase.Failed? && !s.workers[w].phase.Broken?
    case Release(w) => w in s.workers && s.workers[w].phase.Failed?
    case ForceIdle(w) => w in s.workers && s.workers[w].phase.Broken?
    case Leave(w) => w in s.workers && s.workers[w].phase.Returned?
  }

  /** `try_start`, and on Started the spawn that follows without an await. */
  ghost function Ask(s: Sys, w: WorkerId, mode: Mode): Sys
  {
    var (slot', outcome) := Claim(s.slot, mode);
    var merged := mode.Manual? && (outcome.Pending? || (outcome.Started? && outcome.mode.Append?));
    var s' := s.(slot := slot', asked := if merged then s.asked + [mode.concept] else s.asked);
    if outcome.Started? then Put(s', w, Worker(Head(outcome.mode), 0, false)) else s'
  }

  /** `mark_idle_or_continue`, called by worker `w` whose counters are already updated in `k`. */
  ghost function Yield(s: Sys, w: WorkerId, k: Worker): Sys
  {
    var (slot', next) := Continue(s.slot);
    var took := next.Some? && next.value.Manual?;
    var s' := s.(slot := slot', asked := if took then [] else s.asked);
    Put(s', w, k.(phase := if next.Some? then Head(next.value) else Returned))
  }

  /** An iteration opens with four reads, in this order: clock, watermark, raws, concepts. */
  ghost function AfterRead(s: Sys, p: Point): Point
  {
    match p
    case Opening => Clocked(s.clock)
    case Clocked(startedAt) => Marked(startedAt, Watermark(s.wikis))
    case Marked(startedAt, watermark) =>
      Listed(startedAt, watermark, ListSince(s.raws, Personal, s.owner, watermark, startedAt))
    case Listed(startedAt, watermark, newRaws) => Surveyed(startedAt, watermark, newRaws, s.wikis.Keys)
    case _ => p
  }

  /** Start synthesizing `affected`, or end the session when there is nothing to do. */
  ghost function Enter(s: Sys, w: WorkerId, affected: set<string>): Sys
    requires InSession(s, w) && (PointOf(s, w).Surveyed? || PointOf(s, w).Extracted?)
  {
    var p := PointOf(s, w);
    if affected == {} then At(s, w, Ended(Done))
    else Move(s, w, Synthesizing(p.startedAt, p.watermark, p.newRaws, map c | c in affected :: Waiting))
  }

  ghost function ChooseStep(s: Sys, w: WorkerId): Sys
    requires Enabled(s, Choose(w))
  {
    var p := PointOf(s, w);
    match ModeOf(s, w)
    case Append =>
      if p.Surveyed? then At(s, w, Ended(Done))
      else Enter(s, w, AppendAffected(p.reply, p.existing, |s.wikis|))
    case Manual(Some(c)) =>
      if c !in p.existing && CONCEPT_LIMIT_PER_OWNER <= |s.wikis|
      then At(s, w, Session(Append, s.workers[w].phase.iteration + 1, Opening))
      else Enter(s, w, {c})
    case Manual(None) => Enter(s, w, p.existing)
  }

  /** The row is replaced whole; references the model made up are dropped. */
  ghost function UpsertStep(s: Sys, w: WorkerId, c: string, content: string, refs: seq<string>): Sys
    requires Enabled(s, Upsert(w, c, content, refs))
  {
    var p := PointOf(s, w);
    var kept := KeepIds(refs, RawIds(TaskOf(s, w, c).inputs));
    var news := RawIds(p.newRaws);
    SetTask(s, w, c, Finished).(
      wikis := s.wikis[c := Wiki(content, kept, p.startedAt)],
      absorbed := s.absorbed + news,
      viaManual := if ModeOf(s, w).Manual? then s.viaManual + news else s.viaManual)
  }

  function KeepIds(refs: seq<string>, valid: set<string>): (r: seq<string>)
    ensures forall id :: id in r <==> id in refs && id in valid
  {
    if refs == [] then []
    else if refs[0] in valid then [refs[0]] + KeepIds(refs[1..], valid)
    else KeepIds(refs[1..], valid)
  }

  /** The kept references stay in the order in which they were returned, repeats included. */
  lemma {:induction false} KeepIdsInOrder(refs: seq<string>, id: string, valid: set<string>)
    ensures KeepIds(refs + [id], valid) == KeepIds(refs, valid) + if id in valid then [id] else []
  {
    if refs == [] {
      assert KeepIds([id][1..], valid) == [];
    } else {
      assert (refs + [id])[1..] == refs[1..] + [id];
      KeepIdsInOrder(refs[1..], id, valid);
    }
  }

  ghost function ConcludeStep(s: Sys, w: WorkerId): Sys
    requires Enabled(s, Conclude(w))
  {
    var k := s.workers[w];
    match k.phase
    case Ended(Done) => Yield(s, w, k.(caps := 0))
    case Ended(DrainCapped) => Put(s, w, Worker(Head(Append), k.caps + 1, k.drained))
    case Weighed(remainder) =>
      if remainder && !k.drained then Put(s, w, Worker(Head(Append), 0, true))
      else Yield(s, w, k)
  }

  ghost function Apply(s: Sys, e: Event): Sys
    requires Enabled(s, e)
  {
    match e
    case Tick(now) => s.(clock := now)
    case InsertRaw(raw) => s.(raws := Insert(s.raws, raw))
    case NotifyAppend(w) => Ask(s, w, Append)
    case RequestManual(w, concept) => Ask(s, w, Manual(concept))
    case Begin(w) => At(s, w, Session(s.workers[w].phase.mode, 1, Opening))
    case ReadClock(w) => Move(s, w, AfterRead(s, PointOf(s, w)))
    case ReadWatermark(w) => Move(s, w, AfterRead(s, PointOf(s, w)))
    case ListRaws(w) => Move(s, w, AfterRead(s, PointOf(s, w)))
    case Survey(w) => Move(s, w, AfterRead(s, PointOf(s, w)))
    case Extract(w, reply) =>
      var p := PointOf(s, w);
      Move(s, w, Extracted(p.startedAt, p.watermark, p.newRaws, p.existing, reply)).(
        extracted := s.extracted + RawIds(p.newRaws))
    case Choose(w) => ChooseStep(s, w)
    case Load(w, c) => SetTask(s, w, c, Loaded(if c in s.wikis then s.wikis[c].sourceRefs else []))
    case Gather(w, c, ranked) =>
      SetTask(s, w, c, Built(InputBuilder.Inputs(s.raws, TaskOf(s, w, c).refs, PointOf(s, w).newRaws, ranked)))
    case Upsert(w, c, content, refs) => UpsertStep(s, w, c, content, refs)
    case Abandon(w, c) => SetTask(s, w, c, Finished)
    case FinishIteration(w) =>
      var i := s.workers[w].phase.iteration;
      if i == MAX_ITERATIONS then At(s, w, Ended(DrainCapped)) else At(s, w, Session(Append, i + 1, Opening))
    case Lookup(w, until, failed) =>
      var k := s.workers[w];
      Put(s, w, Worker(Weighed(failed || Leftover(s, until)), k.caps + 1, k.drained))
    case Conclude(w) => ConcludeStep(s, w)
    case Fail(w) => At(s, w, Failed)
    case Crash(w) => At(s, w, Broken)
    case Release(w) => s.(workers := s.workers - {w}, slot := s.slot.(running := false))
    case ForceIdle(w) => s.(workers := s.workers - {w}, slot := DEFAULT_SLOT, asked := [])
    case Leave(w) => s.(workers := s.workers - {w})
  }

  // ----- runs -----

  /** No raws, no wikis, no workers. */
  ghost predicate Initial(s: Sys)
  {
    s == Sys(s.owner, s.clock, [], map[], DEFAULT_SLOT, map[], {}, {}, {}, []) && 0 <= s.clock
  }

  /** The state after the events, None when one of them is not possible where it stands. */
  ghost function Run(s: Sys, evs: seq<Event>): Option<Sys>
  {
    if evs == [] then Some(s)
    else
      var n := |evs| - 1;
      match Run(s, evs[..n])
      case None => None
      case Some(t) => if Enabled(t, evs[n]) then Some(Apply(t, evs[n])) else None
  }

  lemma RunSnoc(s: Sys, evs: seq<Event>, e: Event)
    requires Run(s, evs).Some? && Enabled(Run(s, evs).value, e)
    ensures Run(s, evs + [e]) == Some(Apply(Run(s, evs).value, e))
  {
    assert (evs + [e])[..|evs|] == evs;
  }
}
