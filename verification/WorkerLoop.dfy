/** `spawn_worker`, `run_worker`, `run_session` and the synthesis fan-out as they are written, with
    loops over shared mutable state. Each method is proved to perform a run of the coordinator's
    transition system, so the theorems about runs speak about these loops.

    The rest of the process is an oracle: what happens during the n-th await, whether it fails or
    panics, and what the models, the search and the scheduler answer, are arbitrary functions of n. */
module WorkerLoop {
  import opened Wrappers
  import opened Storage
  import opened RebuildSlots
  import opened CoordinatorModel
  import opened CoordinatorSafety
  import opened CoordinatorTheorems
  import opened WorkerRank
  import InputBuilder

  /** What others may do while a worker or its wrapper awaits. `WrapperWakes` is the wrapper of another
      worker finding that its worker returned. */
  datatype Deed =
    | TimePasses(now: int)
    | Commit(raw: Raw)
    | AppendNotice
    | ManualRequest(concept: Option<string>)
    | WrapperWakes(u: WorkerId)

  datatype Verdict = Fine | Error | Panic

  datatype Oracle = Oracle(
    deeds: nat -> seq<Deed>, verdict: nat -> Verdict, reply: nat -> Reply, hits: nat -> seq<Raw>,
    content: nat -> string, refs: nat -> seq<string>)

  datatype Exit = Completed(outcome: Outcome) | Errored | Panicked

  datatype Selection = Synthesize(affected: set<string>) | NothingToDo | OverBudget | Stopped(exit: Exit)

  function PhaseAfter(exit: Exit): Phase
  {
    match exit
    case Completed(o) => Ended(o)
    case Errored => Failed
    case Panicked => Broken
  }

  /** `MAX(last_rebuilt_at)` over the rows of the owner. */
  method MaxLastRebuiltAt(wikis: map<string, Wiki>) returns (m: int)
    ensures m == Watermark(wikis)
  {
    m := 0;
    var rest := wikis.Keys;
    while rest != {}
      invariant rest <= wikis.Keys
      invariant rest == wikis.Keys ==> m == 0
      invariant rest != wikis.Keys ==> exists c :: c in wikis && wikis[c].lastRebuiltAt == m
      invariant forall c :: c in wikis && c !in rest ==> wikis[c].lastRebuiltAt <= m
      decreases rest
    {
      var c :| c in rest;
      if rest == wikis.Keys || m < wikis[c].lastRebuiltAt {
        m := wikis[c].lastRebuiltAt;
      }
      rest := rest - {c};
    }
    if wikis != map[] {
      ghost var c :| c in wikis && wikis[c].lastRebuiltAt == Watermark(wikis);
      assert rest != wikis.Keys by { assert c in wikis.Keys; }
    }
  }

  /** The search filters by owner: hits outside the owner's rows do not come back. */
  function KeepOwn(table: seq<Raw>, owner: string, hits: seq<Raw>): (r: seq<Raw>)
    ensures forall x :: x in r <==> x in hits && x in table && x.scope == Personal && x.ownerId == owner
  {
    if hits == [] then []
    else if hits[0] in table && hits[0].scope == Personal && hits[0].ownerId == owner
    then [hits[0]] + KeepOwn(table, owner, hits[1..])
    else KeepOwn(table, owner, hits[1..])
  }

  lemma UnusedId(used: set<WorkerId>) returns (w: WorkerId)
    ensures w !in used
  {
    var top: nat := 0;
    var rest := used;
    while rest != {}
      invariant forall u :: u in used && u !in rest ==> u <= top
    {
      var u :| u in rest;
      if top < u { top := u; }
      rest := rest - {u};
    }
    w := top + 1;
  }

  /** Steps that only read, or only move the worker, leave the shared data alone. */
  lemma QuietStep(s: Sys, e: Event)
    requires Enabled(s, e)
    requires (InsideSession(e) && !e.Upsert?) || e.Begin? || e.Lookup? || e.Fail? || e.Crash? || e.Leave?
    ensures var t := Apply(s, e);
            t.owner == s.owner && t.clock == s.clock && t.raws == s.raws && t.wikis == s.wikis && t.slot == s.slot
  {
    if e.Choose? { ChoosingKeeps(s, e); }
    else if e.Load? || e.Gather? || e.Abandon? || e.FinishIteration? { TaskKeeps(s, e); }
    else if e.Lookup? || e.Fail? || e.Crash? || e.Leave? { LeavingKeeps(s, e); }
    else { ReadingKeeps(s, e); }
  }

  /** A task the fan-out may move: under way, or not started while fewer than four are. */
  predicate CanMove(tasks: map<string, Task>, c: string)
    requires c in tasks
  {
    !tasks[c].Finished? && (tasks[c].Waiting? ==> |Busy(tasks)| < CONCEPT_CONCURRENCY)
  }

  lemma SomeTaskCanMove(tasks: map<string, Task>)
    requires exists c :: c in tasks && !tasks[c].Finished?
    ensures exists c :: c in tasks && CanMove(tasks, c)
  {
    var c :| c in tasks && !tasks[c].Finished?;
    if !CanMove(tasks, c) {
      var d :| d in Busy(tasks);
      assert CanMove(tasks, d);
    }
  }

  function Unstarted(tasks: map<string, Task>): set<string> { set d | d in tasks && tasks[d].Waiting? }

  function Ungathered(tasks: map<string, Task>): set<string>
  {
    set d | d in tasks && (tasks[d].Waiting? || tasks[d].Loaded?)
  }

  function Unfinished(tasks: map<string, Task>): set<string> { set d | d in tasks && !tasks[d].Finished? }

  /** The tasks came closer to their end. */
  predicate Shrinks(tasks: map<string, Task>, moved: map<string, Task>)
  {
    || Unstarted(moved) < Unstarted(tasks)
    || (Unstarted(moved) == Unstarted(tasks) &&
        (Ungathered(moved) < Ungathered(tasks) ||
         (Ungathered(moved) == Ungathered(tasks) && Unfinished(moved) < Unfinished(tasks))))
  }

  lemma MoveShrinks(tasks: map<string, Task>, c: string, after: Task)
    requires c in tasks && !tasks[c].Finished?
    requires after.Finished? || (tasks[c].Waiting? && after.Loaded?) || (tasks[c].Loaded? && after.Built?)
    ensures Shrinks(tasks, tasks[c := after])
  {
    var moved := tasks[c := after];
    assert forall d :: d in moved <==> d in tasks;
    if tasks[c].Waiting? {
      assert Unstarted(moved) == Unstarted(tasks) - {c} && c in Unstarted(tasks);
    } else if tasks[c].Loaded? {
      assert Unstarted(moved) == Unstarted(tasks);
      assert Ungathered(moved) == Ungathered(tasks) - {c} && c in Ungathered(tasks);
    } else {
      assert Unstarted(moved) == Unstarted(tasks) && Ungathered(moved) == Ungathered(tasks);
      assert Unfinished(moved) == Unfinished(tasks) - {c} && c in Unfinished(tasks);
    }
  }

  /** The last thing in the log about worker `u` is its wrapper leaving. */
  ghost predicate LeftQuietly(log: seq<Event>, u: WorkerId)
  {
    log != [] &&
    var n := |log| - 1;
    log[n] == Leave(u) || (!Concerns(log[n], u) && LeftQuietly(log[..n], u))
  }

  /** A step of worker `u` or a request that would start it. */
  predicate Concerns(e: Event, u: WorkerId)
  {
    !e.Tick? && !e.InsertRaw? && e.w == u
  }

  /** A worker that returned waits for its wrapper, and then is gone without another step. */
  ghost predicate Rests(s: Sys, log: seq<Event>, u: WorkerId)
  {
    if u in s.workers then s.workers[u].phase.Returned? else LeftQuietly(log, u)
  }

  ghost predicate AllRest(s: Sys, log: seq<Event>, done: set<WorkerId>)
  {
    forall u :: u in done ==> Rests(s, log, u)
  }

  lemma RestsOn(s: Sys, log: seq<Event>, e: Event, u: WorkerId)
    requires Enabled(s, e) && Rests(s, log, u) && (IsRequest(e) ==> e.w != u)
    ensures Rests(Apply(s, e), log + [e], u)
  {
    assert (log + [e])[..|log|] == log;
    OthersStay(s, e);
    if Actor(e) == Some(u) { ActorIsLive(s, e); }
  }

  lemma AllRestOn(s: Sys, log: seq<Event>, e: Event, done: set<WorkerId>)
    requires Enabled(s, e) && AllRest(s, log, done) && (IsRequest(e) ==> e.w !in done)
    ensures AllRest(Apply(s, e), log + [e], done)
  {
    forall u | u in done ensures Rests(Apply(s, e), log + [e], u) { RestsOn(s, log, e, u); }
  }

  function Over(tasks: map<string, Task>): set<string>
  {
    set c | c in tasks && tasks[c].Finished?
  }

  /** Each of these concepts has a row written by the iteration that started at `at`. */
  ghost predicate Stamped(wikis: map<string, Wiki>, concepts: set<string>, at: int)
  {
    forall c :: c in concepts ==> c in wikis && wikis[c].lastRebuiltAt == at
  }

  /** No row but those of `concepts` changed, and those that did carry the stamp. */
  ghost predicate OnlyRows(before: map<string, Wiki>, after: map<string, Wiki>, concepts: set<string>, at: int)
  {
    && before.Keys <= after.Keys <= before.Keys + concepts
    && forall c :: c in after && !(c in before && after[c] == before[c]) ==>
                     c in concepts && after[c].lastRebuiltAt == at
  }

  /** What one task's progress does to the rows written so far. */
  lemma RowsGoOn(start: map<string, Wiki>, before: map<string, Wiki>, after: map<string, Wiki>,
                 tasks: map<string, Task>, c: string, task: Task, at: int)
    requires c in tasks && OnlyRows(start, before, tasks.Keys, at)
    requires after == before || (c in after && after == before[c := after[c]] && after[c].lastRebuiltAt == at)
    ensures OnlyRows(start, after, tasks.Keys, at)
    ensures Stamped(before, Over(tasks), at) && (task.Finished? ==> c in after && after[c].lastRebuiltAt == at) ==>
              Stamped(after, Over(tasks[c := task]), at)
  {
  }

  class Process {
    const owner: string
    const oracle: Oracle
    const state: StateMap
    var clock: int
    var raws: seq<Raw>
    var wikis: map<string, Wiki>
    var awaits: nat           // awaits so far: the oracle's time
    var requestsLeft: nat     // outside requests still to come while a worker holds the slot
    var claimsLeft: nat       // ... and after a worker returned, when they may find the slot free
    ghost var init: Sys
    ghost var log: seq<Event>
    /** The workers that returned normally. */
    ghost var done: set<WorkerId>

    function Key(): OwnerKey
    {
      OwnerKey(Personal, owner)
    }

    ghost predicate Logged()
      reads this
    {
      Initial(init) && Run(init, log).Some? && AllRest(Run(init, log).value, log, done)
    }

    ghost function Model(): Sys
      reads this
      requires Logged()
    {
      Run(init, log).value
    }

    /** The real state is the state the logged run leads to. */
    ghost predicate Valid()
      reads this, state
    {
      && Logged()
      && Model().owner == owner && Model().clock == clock && Model().raws == raws && Model().wikis == wikis
      && Model().slot == state.SlotOf(Key())
    }

    ghost predicate Is(w: WorkerId, phase: Phase, caps: nat, drained: bool)
      reads this
      requires Logged()
    {
      w in Model().workers && Model().workers[w] == Worker(phase, caps, drained)
    }

    /** Every awaited call in this stretch succeeded. */
    ghost predicate AllFine(from: nat, to: nat)
    {
      forall n :: from <= n < to ==> oracle.verdict(n).Fine?
    }

    /** The worker failed because its last awaited call, one after `from`, did, and in the same way. */
    ghost predicate ExitDue(e: Exit, from: nat)
      reads this`awaits
    {
      && (e.Errored? ==> from < awaits && oracle.verdict(awaits - 1).Error?)
      && (e.Panicked? ==> from < awaits && oracle.verdict(awaits - 1).Panic?)
    }

    /** Sessions worker `w` can still begin, whatever is asked in the time left. */
    ghost function Rank(w: WorkerId): nat
      reads this
      requires Logged() && w in Model().workers
    {
      Potential(Model().slot, Model().workers[w]) + 3 * requestsLeft
    }

    /** A fresh process over an empty database. */
    constructor (owner: string, oracle: Oracle, clock: nat, requests: nat, claims: nat)
      ensures Valid() && log == [] && requestsLeft == requests && claimsLeft == claims
    {
      this.owner, this.oracle, this.clock, this.raws, this.wikis := owner, oracle, clock, [], map[];
      this.awaits, this.requestsLeft, this.claimsLeft := 0, requests, claims;
      this.state := new StateMap();
      this.init := Sys(owner, clock, [], map[], DEFAULT_SLOT, map[], {}, {}, {}, []);
      this.log, this.done := [], {};
    }

    /** Logs one step of the run. A request never takes the number of a worker that is done. */
    ghost method Note(e: Event)
      requires Logged() && Enabled(Model(), e) && (IsRequest(e) ==> e.w !in done)
      modifies this`log
      ensures Logged() && log == old(log) + [e] && Model() == Apply(old(Model()), e)
    {
      AllRestOn(Model(), log, e, done);
      RunSnoc(init, log, e);
      log := log + [e];
    }

    /** The same, where `w` is the worker whose sessions are counted. */
    ghost method Record(e: Event, w: WorkerId)
      requires Logged() && Enabled(Model(), e) && w in Model().workers && !EndsWrapper(e, w)
      requires IsRequest(e) ==> e.w !in done
      modifies this`log
      ensures Logged() && log == old(log) + [e] && Model() == Apply(old(Model()), e)
      ensures w in Model().workers
      ensures Rank(w) + (if e == Begin(w) then 1 else 0) <= old(Rank(w)) + (if IsRequest(e) then 3 else 0)
    {
      RunIsSafe(init, log);
      PaidStep(Model(), e, w);
      Note(e);
    }

    /** An outside request while `w` holds the slot: it is noted in the slot and nothing is spawned. */
    method Request(mode: Mode, ghost w: WorkerId)
      requires Valid() && w in Model().workers && Live(Model().workers[w]) && 0 < requestsLeft
      modifies this`log, this`requestsLeft, state
      ensures Valid() && w in Model().workers && Model().workers[w] == old(Model().workers[w])
      ensures Rank(w) <= old(Rank(w))
      ensures state.SlotOf(Key()).running
    {
      RunIsSafe(init, log);
      assert Model().slot.running;
      ghost var u := UnusedId(Model().workers.Keys + done);
      ghost var e := if mode.Append? then NotifyAppend(u) else RequestManual(u, mode.concept);
      OthersStay(Model(), e);
      var outcome := state.TryStart(Key(), mode);
      Record(e, w);
      requestsLeft := requestsLeft - 1;
    }

    /** The wrapper of `u` finds that its worker returned: it takes the worker off and touches nothing else. */
    ghost method Wake(u: WorkerId, w: WorkerId)
      requires Valid() && w in Model().workers && Live(Model().workers[w])
      modifies this`log
      ensures Valid() && w in Model().workers && Model().workers[w] == old(Model().workers[w])
      ensures Rank(w) <= old(Rank(w))
    {
      if u in Model().workers && Model().workers[u].phase.Returned? {
        QuietStep(Model(), Leave(u));
        Record(Leave(u), w);
      }
    }

    /** One deed of others while `w` holds the slot. */
    method Act(deed: Deed, ghost w: WorkerId)
      requires Valid() && w in Model().workers && Live(Model().workers[w]) && state.SlotOf(Key()).running
      modifies this`log, this`requestsLeft, this`clock, this`raws, state
      ensures Valid() && w in Model().workers && Model().workers[w] == old(Model().workers[w])
      ensures Rank(w) <= old(Rank(w))
      ensures state.SlotOf(Key()).running && old(clock) <= clock
    {
      match deed {
        case TimePasses(now) =>
          if clock <= now {
            clock := now;
            Record(Tick(now), w);
          }
        case Commit(raw) =>
          if !HasId(raws, raw.id) && 0 < raw.createdAt <= clock {
            raws := Insert(raws, raw);
            Record(InsertRaw(raw), w);
          }
        case AppendNotice =>
          if 0 < requestsLeft { Request(Append, w); }
        case ManualRequest(concept) =>
          if 0 < requestsLeft { Request(Manual(concept), w); }
        case WrapperWakes(u) =>
          Wake(u, w);
      }
    }

    /** One `await` of worker `w`: others act, then the awaited call succeeds, fails or never returns. */
    method Await(ghost w: WorkerId) returns (v: Verdict)
      requires Valid() && w in Model().workers && Live(Model().workers[w])
      modifies this`log, this`requestsLeft, this`clock, this`raws, this`awaits, state
      ensures Valid() && w in Model().workers && Model().workers[w] == old(Model().workers[w])
      ensures Rank(w) <= old(Rank(w))
      ensures state.SlotOf(Key()).running && old(clock) <= clock
      ensures awaits == old(awaits) + 1 && v == oracle.verdict(old(awaits))
    {
      RunIsSafe(init, log);
      assert Model().slot.running;
      var deeds := oracle.deeds(awaits);
      for i := 0 to |deeds|
        invariant Valid() && w in Model().workers && Model().workers[w] == old(Model().workers[w])
        invariant Rank(w) <= old(Rank(w))
        invariant state.SlotOf(Key()).running && old(clock) <= clock && awaits == old(awaits)
      {
        Act(deeds[i], w);
      }
      v := oracle.verdict(awaits);
      awaits := awaits + 1;
    }

    /** One `await` inside an iteration: `?` leaves with Err, a panic leaves nothing, and otherwise the
        worker stands where it stood. */
    method AwaitIn(ghost w: WorkerId, ghost mode: Mode, ghost iteration: nat, ghost p: Point,
                   ghost caps: nat, ghost drained: bool) returns (stop: Option<Exit>)
      requires Valid() && Is(w, Session(mode, iteration, p), caps, drained) && !p.Opening? && !p.Synthesizing?
      modifies this`log, this`requestsLeft, this`clock, this`raws, this`awaits, state
      ensures Valid() && w in Model().workers && Rank(w) <= old(Rank(w))
      ensures stop.None? ==> Is(w, Session(mode, iteration, p), caps, drained)
      ensures stop.Some? ==> !stop.value.Completed? && Is(w, PhaseAfter(stop.value), caps, drained)
      ensures awaits == old(awaits) + 1 && old(clock) <= clock
      ensures stop.Some? ==> ExitDue(stop.value, old(awaits))
      ensures stop == match oracle.verdict(old(awaits))
                      case Fine => None
                      case Error => Some(Errored)
                      case Panic => Some(Panicked)
    {
      var v := Await(w);
      match v {
        case Fine =>
          stop := None;
        case Error =>
          QuietStep(Model(), Fail(w));
          Record(Fail(w), w);
          stop := Some(Errored);
        case Panic =>
          QuietStep(Model(), Crash(w));
          Record(Crash(w), w);
          stop := Some(Panicked);
      }
    }

    /** The event that reads on from a point. */
    ghost function ReadFrom(w: WorkerId, p: Point): Event
    {
      match p
      case Opening => ReadClock(w)
      case Clocked(_) => ReadWatermark(w)
      case Marked(_, _) => ListRaws(w)
      case _ => Survey(w)
    }

    ghost method Read(w: WorkerId, mode: Mode, iteration: nat, p: Point, caps: nat, drained: bool)
      requires Valid() && Is(w, Session(mode, iteration, p), caps, drained)
      requires p.Opening? || p.Clocked? || p.Marked? || p.Listed?
      modifies this`log
      ensures Valid() && Is(w, Session(mode, iteration, old(AfterRead(Model(), p))), caps, drained)
      ensures Rank(w) <= old(Rank(w))
    {
      QuietStep(Model(), ReadFrom(w, p));
      Record(ReadFrom(w, p), w);
    }

    ghost method TakeReply(w: WorkerId, iteration: nat, p: Point, reply: Reply, caps: nat, drained: bool)
      requires Valid() && Is(w, Session(Append, iteration, p), caps, drained) && p.Surveyed? && p.newRaws != []
      modifies this`log
      ensures Valid()
      ensures var q := Extracted(p.startedAt, p.watermark, p.newRaws, p.existing, reply);
              Is(w, Session(Append, iteration, q), caps, drained)
      ensures Rank(w) <= old(Rank(w))
    {
      QuietStep(Model(), Extract(w, reply));
      Record(Extract(w, reply), w);
    }

    /** The worker goes on with `affected`, or ends its session when that is empty. */
    ghost predicate Entered(w: WorkerId, mode: Mode, iteration: nat, p: Point, affected: set<string>,
                            caps: nat, drained: bool)
      reads this
      requires Logged() && (p.Surveyed? || p.Extracted?)
    {
      Is(w, if affected == {} then Ended(Done)
            else Session(mode, iteration, Synthesizing(p.startedAt, p.watermark, p.newRaws,
                                                       map c | c in affected :: Waiting)), caps, drained)
    }

    ghost method Select(w: WorkerId, mode: Mode, iteration: nat, p: Point, affected: set<string>,
                        caps: nat, drained: bool)
      requires Valid() && Is(w, Session(mode, iteration, p), caps, drained) && (p.Surveyed? || p.Extracted?)
      requires match mode
               case Append => if p.Surveyed? then p.newRaws == [] && affected == {}
                              else affected == AppendAffected(p.reply, p.existing, |wikis|)
               case Manual(Some(c)) => affected == {c} && (c in p.existing || |wikis| < CONCEPT_LIMIT_PER_OWNER)
               case Manual(None) => affected == p.existing
      modifies this`log
      ensures Valid() && Entered(w, mode, iteration, p, affected, caps, drained)
      ensures Rank(w) <= old(Rank(w))
    {
      QuietStep(Model(), Choose(w));
      Record(Choose(w), w);
    }

    ghost method Reject(w: WorkerId, c: string, iteration: nat, p: Point, caps: nat, drained: bool)
      requires Valid() && Is(w, Session(Manual(Some(c)), iteration, p), caps, drained) && p.Surveyed?
      requires c !in p.existing && CONCEPT_LIMIT_PER_OWNER <= |wikis|
      modifies this`log
      ensures Valid() && Is(w, Session(Append, iteration + 1, Opening), caps, drained)
      ensures Rank(w) <= old(Rank(w))
    {
      QuietStep(Model(), Choose(w));
      Record(Choose(w), w);
    }

    ghost method OpenSession(w: WorkerId, mode: Mode, caps: nat, drained: bool)
      requires Valid() && Is(w, Head(mode), caps, drained)
      modifies this`log
      ensures Valid() && Is(w, Session(mode, 1, Opening), caps, drained)
      ensures Rank(w) + 1 <= old(Rank(w))
    {
      QuietStep(Model(), Begin(w));
      Record(Begin(w), w);
    }

    ghost method CloseIteration(w: WorkerId, mode: Mode, iteration: nat, p: Point, caps: nat, drained: bool)
      requires Valid() && Is(w, Session(mode, iteration, p), caps, drained) && p.Synthesizing? && AllFinished(p.tasks)
      modifies this`log
      ensures Valid()
      ensures Is(w, if iteration == MAX_ITERATIONS then Ended(DrainCapped) else Session(Append, iteration + 1, Opening),
                 caps, drained)
      ensures Rank(w) <= old(Rank(w))
    {
      QuietStep(Model(), FinishIteration(w));
      Record(FinishIteration(w), w);
    }

    /** No session opens an iteration past the tenth. */
    lemma IterationsAreCapped(w: WorkerId)
      requires Logged() && InSession(Model(), w)
      ensures Model().workers[w].phase.iteration <= MAX_ITERATIONS
    {
      RunIsSafe(init, log);
      assert PhaseOk(Model(), Model().workers[w].phase);
    }

    /** The row of `c` is replaced by what the model returned: its content, and of its references exactly
        those among the inputs, stamped with the start of the iteration. */
    ghost predicate WritesRow(before: map<string, Wiki>, after: map<string, Wiki>, c: string, inputs: seq<Raw>,
                              startedAt: int)
      reads this`awaits
    {
      && c in after && after == before[c := after[c]]
      && after[c].content == oracle.content(awaits) && after[c].lastRebuiltAt == startedAt
      && after[c].sourceRefs == KeepIds(oracle.refs(awaits), RawIds(inputs))
      && (forall id :: id in after[c].sourceRefs <==>
                         id in oracle.refs(awaits) && exists r :: r in inputs && r.id == id)
    }

    /** One `synthesize_one` moved by one await; an error inside it is swallowed, and only an error
        finishes it without a write. */
    method AdvanceTask(ghost w: WorkerId, c: string, task: Task, newRaws: seq<Raw>, startedAt: int, v: Verdict)
      returns (after: Task)
      requires Valid() && HasTask(Model(), w, c) && TaskOf(Model(), w, c) == task && !task.Finished?
      requires PointOf(Model(), w).newRaws == newRaws && PointOf(Model(), w).startedAt == startedAt
      requires task.Waiting? ==> |Busy(PointOf(Model(), w).tasks)| < CONCEPT_CONCURRENCY
      modifies this`log, this`wikis
      ensures Valid() && w in Model().workers
      ensures Model().workers[w] == old(SetTask(Model(), w, c, after).workers[w])
      ensures after.Finished? || (task.Waiting? && after.Loaded?) || (task.Loaded? && after.Built?)
      ensures v.Error? ==> after.Finished?
      ensures v.Error? || !task.Built? ==> wikis == old(wikis)
      ensures !v.Error? && task.Waiting? ==> after == Loaded(if c in wikis then wikis[c].sourceRefs else [])
      ensures !v.Error? && task.Loaded? ==>
                after == Built(InputBuilder.Inputs(raws, task.refs, newRaws, KeepOwn(raws, owner, oracle.hits(awaits))))
      ensures !v.Error? && task.Built? ==> WritesRow(old(wikis), wikis, c, task.inputs, startedAt)
      ensures Rank(w) <= old(Rank(w))
    {
      if v.Error? {
        after := Finished;
        QuietStep(Model(), Abandon(w, c));
        Record(Abandon(w, c), w);
        return;
      }
      match task {
        case Waiting =>
          after := Loaded(if c in wikis then wikis[c].sourceRefs else []);
          QuietStep(Model(), Load(w, c));
          Record(Load(w, c), w);
        case Loaded(refs) =>
          var ranked := KeepOwn(raws, owner, oracle.hits(awaits));
          var inputs := InputBuilder.Build(raws, refs, newRaws, ranked);
          after := Built(inputs);
          QuietStep(Model(), Gather(w, c, ranked));
          Record(Gather(w, c, ranked), w);
        case Built(inputs) =>
          var content, refs := oracle.content(awaits), oracle.refs(awaits);
          after := Finished;
          wikis := wikis[c := Wiki(content, KeepIds(refs, RawIds(inputs)), startedAt)];
          Record(Upsert(w, c, content, refs), w);
      }
    }

    /** One task of the fan-out awaits and goes on, or the worker dies. */
    method MoveTask(ghost w: WorkerId, c: string, tasks: map<string, Task>, newRaws: seq<Raw>, startedAt: int,
                    ghost mode: Mode, ghost iteration: nat, ghost watermark: int,
                    ghost caps: nat, ghost drained: bool)
      returns (after: Task, v: Verdict)
      requires Valid() && c in tasks && CanMove(tasks, c)
      requires Is(w, Session(mode, iteration, Synthesizing(startedAt, watermark, newRaws, tasks)), caps, drained)
      modifies this`log, this`requestsLeft, this`clock, this`raws, this`wikis, this`awaits, state
      ensures Valid() && w in Model().workers && Rank(w) <= old(Rank(w))
      ensures v.Panic? ==> Is(w, Broken, caps, drained)
      ensures !v.Panic? ==>
                after.Finished? || (tasks[c].Waiting? && after.Loaded?) || (tasks[c].Loaded? && after.Built?)
      ensures !v.Panic? ==>
                Is(w, Session(mode, iteration, Synthesizing(startedAt, watermark, newRaws, tasks[c := after])),
                   caps, drained)
      ensures awaits == old(awaits) + 1 && v == oracle.verdict(old(awaits))
      ensures !v.Fine? || !tasks[c].Built? ==> wikis == old(wikis)
      ensures v.Fine? && after.Finished? ==>
                tasks[c].Built? && WritesRow(old(wikis), wikis, c, tasks[c].inputs, startedAt)
    {
      v := Await(w);
      if v.Panic? {
        QuietStep(Model(), Crash(w));
        Record(Crash(w), w);
        return tasks[c], v;
      }
      after := AdvanceTask(w, c, tasks[c], newRaws, startedAt, v);
    }

    /** Some task of the fan-out that may move does; `start` is the wiki table before the fan-out. */
    method MoveSome(ghost w: WorkerId, tasks: map<string, Task>, newRaws: seq<Raw>, startedAt: int,
                    ghost mode: Mode, ghost iteration: nat, ghost watermark: int,
                    ghost caps: nat, ghost drained: bool, ghost start: map<string, Wiki>)
      returns (moved: map<string, Task>, v: Verdict)
      requires Valid() && exists c :: c in tasks && !tasks[c].Finished?
      requires Is(w, Session(mode, iteration, Synthesizing(startedAt, watermark, newRaws, tasks)), caps, drained)
      requires OnlyRows(start, wikis, tasks.Keys, startedAt)
      modifies this`log, this`requestsLeft, this`clock, this`raws, this`wikis, this`awaits, state
      ensures Valid() && w in Model().workers && Rank(w) <= old(Rank(w))
      ensures awaits == old(awaits) + 1 && v == oracle.verdict(old(awaits))
      ensures OnlyRows(start, wikis, tasks.Keys, startedAt)
      ensures v.Panic? ==> Is(w, Broken, caps, drained)
      ensures !v.Panic? ==> moved.Keys == tasks.Keys && Shrinks(tasks, moved)
      ensures !v.Panic? ==>
                Is(w, Session(mode, iteration, Synthesizing(startedAt, watermark, newRaws, moved)), caps, drained)
      ensures v.Fine? && Stamped(old(wikis), Over(tasks), startedAt) ==> Stamped(wikis, Over(moved), startedAt)
    {
      SomeTaskCanMove(tasks);
      var c :| c in tasks && CanMove(tasks, c);
      var after;
      after, v := MoveTask(w, c, tasks, newRaws, startedAt, mode, iteration, watermark, caps, drained);
      if v.Panic? { return tasks, v; }
      moved := tasks[c := after];
      MoveShrinks(tasks, c, after);
      RowsGoOn(start, old(wikis), wikis, tasks, c, after, startedAt);
    }

    /** The loop of the fan-out: tasks move until all are finished or the worker dies. */
    method MoveAll(ghost w: WorkerId, all: map<string, Task>, newRaws: seq<Raw>, startedAt: int,
                   ghost mode: Mode, ghost iteration: nat, ghost watermark: int,
                   ghost caps: nat, ghost drained: bool)
      returns (tasks: map<string, Task>, v: Verdict)
      requires Valid()
      requires Is(w, Session(mode, iteration, Synthesizing(startedAt, watermark, newRaws, all)), caps, drained)
      requires Over(all) == {}
      modifies this`log, this`requestsLeft, this`clock, this`raws, this`wikis, this`awaits, state
      ensures Valid() && !v.Error? && w in Model().workers && Rank(w) <= old(Rank(w))
      ensures old(awaits) <= awaits && OnlyRows(old(wikis), wikis, all.Keys, startedAt)
      ensures v.Panic? ==> Is(w, Broken, caps, drained) && ExitDue(Panicked, old(awaits))
      ensures v.Fine? ==> AllFinished(tasks) && tasks.Keys == all.Keys
      ensures v.Fine? ==>
                Is(w, Session(mode, iteration, Synthesizing(startedAt, watermark, newRaws, tasks)), caps, drained)
      ensures v.Fine? && AllFine(old(awaits), awaits) ==> Stamped(wikis, Over(tasks), startedAt)
    {
      tasks := all;
      while exists c :: c in tasks && !tasks[c].Finished?
        invariant Valid() && old(awaits) <= awaits && tasks.Keys == all.Keys
        invariant Is(w, Session(mode, iteration, Synthesizing(startedAt, watermark, newRaws, tasks)), caps, drained)
        invariant Rank(w) <= old(Rank(w))
        invariant OnlyRows(old(wikis), wikis, tasks.Keys, startedAt)
        invariant AllFine(old(awaits), awaits) ==> Stamped(wikis, Over(tasks), startedAt)
        decreases Unstarted(tasks), Ungathered(tasks), Unfinished(tasks)
      {
        tasks, v := MoveSome(w, tasks, newRaws, startedAt, mode, iteration, watermark, caps, drained, old(wikis));
        if v.Panic? { return; }
      }
      v := Fine;
    }

    /** `for_each_concurrent`: any order of progress, at most four tasks under way. */
    method SynthesizeConcepts(ghost w: WorkerId, affected: set<string>, newRaws: seq<Raw>, startedAt: int,
                              ghost mode: Mode, ghost iteration: nat, ghost watermark: int,
                              ghost caps: nat, ghost drained: bool)
      returns (tasks: map<string, Task>, v: Verdict)
      requires Valid()
      requires Is(w, Session(mode, iteration, Synthesizing(startedAt, watermark, newRaws,
                                                           map c | c in affected :: Waiting)), caps, drained)
      modifies this`log, this`requestsLeft, this`clock, this`raws, this`wikis, this`awaits, state
      ensures Valid() && !v.Error?
      ensures v.Fine? ==> AllFinished(tasks)
      ensures v.Fine? ==>
                Is(w, Session(mode, iteration, Synthesizing(startedAt, watermark, newRaws, tasks)), caps, drained)
      ensures v.Panic? ==> Is(w, Broken, caps, drained) && ExitDue(Panicked, old(awaits))
      ensures w in Model().workers && Rank(w) <= old(Rank(w))
      ensures old(awaits) <= awaits && OnlyRows(old(wikis), wikis, affected, startedAt)
      ensures v.Fine? && AllFine(old(awaits), awaits) ==> Stamped(wikis, affected, startedAt)
    {
      var all: map<string, Task> := map c | c in affected :: Waiting;
      assert all.Keys == affected && Over(all) == {};
      tasks, v := MoveAll(w, all, newRaws, startedAt, mode, iteration, watermark, caps, drained);
      assert v.Fine? ==> Over(tasks) == affected;
    }

    /** The four reads an iteration opens with. */
    method OpenIteration(ghost w: WorkerId, ghost mode: Mode, ghost iteration: nat,
                         ghost caps: nat, ghost drained: bool)
      returns (startedAt: int, watermark: int, newRaws: seq<Raw>, existing: set<string>, stop: Option<Exit>)
      requires Valid() && Is(w, Session(mode, iteration, Opening), caps, drained)
      modifies this`log, this`requestsLeft, this`clock, this`raws, this`awaits, state
      ensures Valid() && w in Model().workers && Rank(w) <= old(Rank(w))
      ensures stop.None? ==>
                Is(w, Session(mode, iteration, Surveyed(startedAt, watermark, newRaws, existing)), caps, drained)
      ensures stop.Some? ==> !stop.value.Completed? && Is(w, PhaseAfter(stop.value), caps, drained)
      ensures stop.Some? ==> ExitDue(stop.value, old(awaits))
      ensures old(awaits) <= awaits && startedAt == old(clock)
    {
      watermark, newRaws, existing := 0, [], {};
      startedAt := clock;
      Read(w, mode, iteration, Opening, caps, drained);

      stop := AwaitIn(w, mode, iteration, Clocked(startedAt), caps, drained);
      if stop.Some? { return; }
      watermark := MaxLastRebuiltAt(wikis);
      Read(w, mode, iteration, Clocked(startedAt), caps, drained);

      stop := AwaitIn(w, mode, iteration, Marked(startedAt, watermark), caps, drained);
      if stop.Some? { return; }
      newRaws := ListSince(raws, Personal, owner, watermark, startedAt);
      Read(w, mode, iteration, Marked(startedAt, watermark), caps, drained);

      stop := AwaitIn(w, mode, iteration, Listed(startedAt, watermark, newRaws), caps, drained);
      if stop.Some? { return; }
      existing := wikis.Keys;
      Read(w, mode, iteration, Listed(startedAt, watermark, newRaws), caps, drained);
    }

    /** What an iteration whose selection starts at await `at` is asked to synthesize: for an append with
        new raws, what the extractor answers calls for. */
    function Wanted(at: nat, mode: Mode, newRaws: seq<Raw>, existing: set<string>): set<string>
      reads this`wikis
    {
      match mode
      case Append => if newRaws == [] then {} else AppendAffected(oracle.reply(at + 1), existing, |wikis|)
      case Manual(Some(c)) => {c}
      case Manual(None) => existing
    }

    /** The concepts the iteration will synthesize, by mode. A new concept over the budget is given up
        and the session goes on as Append. */
    method SelectConcepts(ghost w: WorkerId, mode: Mode, startedAt: int, watermark: int, newRaws: seq<Raw>,
                          existing: set<string>, ghost iteration: nat, ghost caps: nat, ghost drained: bool)
      returns (sel: Selection)
      requires Valid()
      requires Is(w, Session(mode, iteration, Surveyed(startedAt, watermark, newRaws, existing)), caps, drained)
      modifies this`log, this`requestsLeft, this`clock, this`raws, this`awaits, state
      ensures Valid() && w in Model().workers && Rank(w) <= old(Rank(w))
      ensures match sel
              case Synthesize(affected) =>
                Is(w, Session(mode, iteration, Synthesizing(startedAt, watermark, newRaws,
                                                            map c | c in affected :: Waiting)), caps, drained)
              case NothingToDo => Is(w, Ended(Done), caps, drained)
              case OverBudget => Is(w, Session(Append, iteration + 1, Opening), caps, drained)
              case Stopped(exit) => !exit.Completed? && Is(w, PhaseAfter(exit), caps, drained)
      ensures old(awaits) <= awaits
      ensures match sel
              case Synthesize(affected) => affected != {} && affected == Wanted(old(awaits), mode, newRaws, existing)
              case NothingToDo => Wanted(old(awaits), mode, newRaws, existing) == {}
              case OverBudget => mode.Manual? && mode.concept.Some? && mode.concept.value !in existing && 200 <= |wikis|
              case Stopped(exit) => ExitDue(exit, old(awaits))
    {
      var affected: set<string>;
      ghost var p := Surveyed(startedAt, watermark, newRaws, existing);
      match mode {
        case Append =>
          if newRaws == [] {
            Select(w, mode, iteration, p, {}, caps, drained);
            return NothingToDo;
          }
          var stop := AwaitIn(w, mode, iteration, p, caps, drained);
          if stop.Some? { return Stopped(stop.value); }
          var reply := oracle.reply(awaits);
          TakeReply(w, iteration, p, reply, caps, drained);
          p := Extracted(startedAt, watermark, newRaws, existing, reply);
          stop := AwaitIn(w, mode, iteration, p, caps, drained);
          if stop.Some? { return Stopped(stop.value); }
          affected := AppendAffected(reply, existing, |wikis|);
        case Manual(Some(c)) =>
          if c !in existing {
            var stop := AwaitIn(w, mode, iteration, p, caps, drained);
            if stop.Some? { return Stopped(stop.value); }
            if CONCEPT_LIMIT_PER_OWNER <= |wikis| {
              Reject(w, c, iteration, p, caps, drained);
              return OverBudget;
            }
          }
          affected := {c};
        case Manual(None) =>
          affected := existing;
      }
      Select(w, mode, iteration, p, affected, caps, drained);
      sel := if affected == {} then NothingToDo else Synthesize(affected);
    }

    /** One turn of the drain loop: the session's exit, or None to go on in Append mode. */
    method RunIteration(ghost w: WorkerId, mode: Mode, iteration: nat, ghost caps: nat, ghost drained: bool)
      returns (exit: Option<Exit>, ghost wrote: set<string>)
      requires Valid() && Is(w, Session(mode, iteration, Opening), caps, drained)
      modifies this`log, this`requestsLeft, this`clock, this`raws, this`wikis, this`awaits, state
      ensures Valid() && w in Model().workers && Rank(w) <= old(Rank(w))
      ensures var phase := if exit.Some? then PhaseAfter(exit.value) else Session(Append, iteration + 1, Opening);
              Is(w, phase, caps, drained)
      ensures old(awaits) <= awaits && (exit.Some? ==> ExitDue(exit.value, old(awaits)))
      ensures exit == Some(Completed(DrainCapped)) ==> iteration == 10
      ensures exit == Some(Completed(Done)) ==> wikis == old(wikis)
      ensures OnlyRows(old(wikis), wikis, wrote, old(clock))
      ensures AllFine(old(awaits), awaits) && exit.None? && mode.Append? ==> wrote != {}
      ensures AllFine(old(awaits), awaits) ==> Stamped(wikis, wrote, old(clock))
    {
      wrote := {};
      var startedAt, watermark, newRaws, existing, stop := OpenIteration(w, mode, iteration, caps, drained);
      if stop.Some? { return stop, {}; }
      var sel := SelectConcepts(w, mode, startedAt, watermark, newRaws, existing, iteration, caps, drained);
      match sel {
        case Stopped(e) => return Some(e), {};
        case NothingToDo => return Some(Completed(Done)), {};
        case OverBudget => return None, {};
        case Synthesize(affected) =>
          wrote := affected;
          exit := Fulfil(w, affected, newRaws, startedAt, mode, iteration, watermark, caps, drained);
      }
    }

    /** The writing half of an iteration. */
    method Fulfil(ghost w: WorkerId, affected: set<string>, newRaws: seq<Raw>, startedAt: int, ghost mode: Mode,
                  iteration: nat, ghost watermark: int, ghost caps: nat, ghost drained: bool)
      returns (exit: Option<Exit>)
      requires Valid()
      requires Is(w, Session(mode, iteration, Synthesizing(startedAt, watermark, newRaws,
                                                           map c | c in affected :: Waiting)), caps, drained)
      modifies this`log, this`requestsLeft, this`clock, this`raws, this`wikis, this`awaits, state
      ensures Valid() && w in Model().workers && Rank(w) <= old(Rank(w))
      ensures var phase := if exit.Some? then PhaseAfter(exit.value) else Session(Append, iteration + 1, Opening);
              Is(w, phase, caps, drained)
      ensures old(awaits) <= awaits && (exit.Some? ==> ExitDue(exit.value, old(awaits)))
      ensures exit.Some? && exit.value.Completed? ==> exit == Some(Completed(DrainCapped)) && iteration == 10
      ensures OnlyRows(old(wikis), wikis, affected, startedAt)
      ensures AllFine(old(awaits), awaits) ==> Stamped(wikis, affected, startedAt)
    {
      var tasks, v := SynthesizeConcepts(w, affected, newRaws, startedAt, mode, iteration, watermark, caps, drained);
      if v.Panic? { return Some(Panicked); }
      CloseIteration(w, mode, iteration, Synthesizing(startedAt, watermark, newRaws, tasks), caps, drained);
      exit := if iteration == MAX_ITERATIONS then Some(Completed(DrainCapped)) else None;
    }

    /** One session: at most ten iterations, the first in the starting mode and the rest in Append. */
    method RunSession(ghost w: WorkerId, startingMode: Mode, ghost caps: nat, ghost drained: bool) returns (r: Exit)
      requires Valid() && Is(w, Head(startingMode), caps, drained)
      modifies this`log, this`requestsLeft, this`clock, this`raws, this`wikis, this`awaits, state
      ensures Valid() && Is(w, PhaseAfter(r), caps, drained)
      ensures Rank(w) + 1 <= old(Rank(w))
      ensures old(awaits) <= awaits && ExitDue(r, old(awaits))
    {
      r := Completed(Done);
      OpenSession(w, startingMode, caps, drained);
      var mode := startingMode;
      for iteration := 1 to MAX_ITERATIONS + 1
        invariant Valid()
        invariant Is(w, Session(mode, iteration, Opening), caps, drained)
        invariant Rank(w) + 1 <= old(Rank(w)) && old(awaits) <= awaits
      {
        var exit, _ := RunIteration(w, mode, iteration, caps, drained);
        if exit.Some? { return exit.value; }
        mode := Append;
      }
      // The source ends in Ok(Done) here, which is dead code.
      IterationsAreCapped(w);
      assert false;
    }

    // ----- run_worker -----

    ghost method Weigh(w: WorkerId, until: int, failed: bool, caps: nat, drained: bool)
      requires Valid() && Is(w, Ended(DrainCapped), caps, drained) && MAX_CONSECUTIVE_CAPS <= caps + 1 && until <= clock
      modifies this`log
      ensures Valid()
      ensures var left := ListSince(raws, Personal, owner, Watermark(wikis), until) != [];
              Is(w, Weighed(failed || left), caps + 1, drained)
      ensures Rank(w) <= old(Rank(w))
    {
      QuietStep(Model(), Lookup(w, until, failed));
      Record(Lookup(w, until, failed), w);
    }

    ghost method Die(w: WorkerId, caps: nat, drained: bool)
      requires Valid() && w in Model().workers && Enabled(Model(), Crash(w))
      requires Model().workers[w].caps == caps && Model().workers[w].drained == drained
      modifies this`log
      ensures Valid() && Is(w, Broken, caps, drained)
      ensures Rank(w) <= old(Rank(w))
    {
      QuietStep(Model(), Crash(w));
      Record(Crash(w), w);
    }

    ghost method GiveUp(w: WorkerId, caps: nat, drained: bool)
      requires Valid() && Is(w, Ended(DrainCapped), caps, drained) && MAX_CONSECUTIVE_CAPS <= caps + 1
      modifies this`log
      ensures Valid() && Is(w, Failed, caps, drained)
      ensures Rank(w) <= old(Rank(w))
    {
      QuietStep(Model(), Fail(w));
      Record(Fail(w), w);
    }

    /** Leaves the capped session for another Append session without asking the slot. */
    ghost method GoOn(w: WorkerId, phase: Phase, caps: nat, drained: bool)
      requires Valid() && Is(w, phase, caps, drained)
      requires (phase == Ended(DrainCapped) && caps + 1 < MAX_CONSECUTIVE_CAPS) || (phase == Weighed(true) && !drained)
      modifies this`log
      ensures Valid() && w in Model().workers && Rank(w) <= old(Rank(w))
      ensures if phase.Weighed? then Is(w, Head(Append), 0, true) else Is(w, Head(Append), caps + 1, drained)
    {
      Record(Conclude(w), w);
    }

    /** `mark_idle_or_continue`: take what is owed, or give the slot up. */
    method AskSlot(ghost w: WorkerId, ghost phase: Phase, ghost caps: nat, ghost drained: bool)
      returns (next: Option<Mode>, died: bool)
      requires Valid() && Is(w, phase, caps, drained)
      requires phase == Ended(Done) || (phase.Weighed? && !(phase.remainder && !drained))
      modifies this`log, this`requestsLeft, this`clock, this`raws, this`awaits, state
      ensures Valid() && w in Model().workers && Rank(w) <= old(Rank(w))
      ensures died ==> Model().workers[w].phase == Broken
      ensures !died ==>
                Is(w, if next.Some? then Head(next.value) else Returned, if phase.Ended? then 0 else caps, drained)
      ensures !died && next.None? ==> !state.SlotOf(Key()).running
      ensures awaits == old(awaits) + 1 && (died <==> oracle.verdict(old(awaits)).Panic?)
    {
      var v := Await(w);
      if v.Panic? {
        Die(w, caps, drained);
        return None, true;
      }
      died := false;
      next := state.MarkIdleOrContinue(Key());
      Record(Conclude(w), w);
    }

    /** The listing of that lookup: a failed one counts as leftover. */
    method ListRest(ghost w: WorkerId, watermark: int, ghost caps: nat, ghost drained: bool)
      returns (remainder: bool, died: bool, ghost until: int)
      requires Valid() && Is(w, Ended(DrainCapped), caps, drained) && MAX_CONSECUTIVE_CAPS <= caps + 1
      requires watermark == Watermark(wikis)
      modifies this`log, this`requestsLeft, this`clock, this`raws, this`awaits, state
      ensures Valid() && w in Model().workers && Rank(w) <= old(Rank(w))
      ensures awaits == old(awaits) + 1 && until == old(clock) <= clock
      ensures died <==> oracle.verdict(old(awaits)).Panic?
      ensures died ==> Is(w, Broken, caps, drained)
      ensures !died ==> Is(w, Weighed(remainder), caps + 1, drained)
      ensures remainder <==> !died && (oracle.verdict(old(awaits)).Error? || SomeRest(until))
    {
      var now := clock;
      until := now;
      var v := Await(w);
      died := v.Panic?;
      if died {
        Die(w, caps, drained);
        return false, true, until;
      }
      var rest := ListSince(raws, Personal, owner, watermark, now);
      remainder := v.Error? || rest != [];
      assert rest != [] ==> rest[0] in rest;
      Weigh(w, now, v.Error?, caps, drained);
    }

    /** A raw of the owner lies above the watermark. */
    ghost predicate SomeRest(until: int)
      reads this`raws, this`wikis
    {
      exists r :: r in ListSince(raws, Personal, owner, Watermark(wikis), until)
    }

    /** The lookup after a streak of capped sessions: are raws left above the watermark? A failed
        listing counts as yes; a failed watermark read ends the worker. */
    method WeighRemainder(ghost w: WorkerId, ghost caps: nat, ghost drained: bool)
      returns (remainder: bool, stop: Option<Exit>, ghost until: int)
      requires Valid() && Is(w, Ended(DrainCapped), caps, drained) && MAX_CONSECUTIVE_CAPS <= caps + 1
      modifies this`log, this`requestsLeft, this`clock, this`raws, this`awaits, state
      ensures Valid() && w in Model().workers && Rank(w) <= old(Rank(w))
      ensures stop.None? ==> Is(w, Weighed(remainder), caps + 1, drained)
      ensures stop.Some? ==> !stop.value.Completed? && Model().workers[w].phase == PhaseAfter(stop.value)
      ensures old(awaits) < awaits && old(clock) <= until <= clock && (stop.Some? ==> ExitDue(stop.value, old(awaits)))
      ensures stop.None? ==> awaits == old(awaits) + 2
      ensures stop.None? ==> (remainder <==> oracle.verdict(old(awaits) + 1).Error? || SomeRest(until))
    {
      remainder, until := false, clock;
      var v := Await(w);
      if v.Error? {
        GiveUp(w, caps, drained);
        return false, Some(Errored), clock;
      } else if v.Panic? {
        Die(w, caps, drained);
        return false, Some(Panicked), clock;
      }
      var watermark := MaxLastRebuiltAt(wikis);
      var died;
      remainder, died, until := ListRest(w, watermark, caps, drained);
      stop := if died then Some(Panicked) else None;
    }

    /** What follows a session that ended normally: another one, or the slot is given up. */
    method FollowSession(ghost w: WorkerId, outcome: Outcome, caps: nat, drained: bool)
      returns (next: Option<Mode>, caps': nat, drained': bool, stop: Option<Exit>)
      requires Valid() && Is(w, Ended(outcome), caps, drained)
      modifies this`log, this`requestsLeft, this`clock, this`raws, this`awaits, state
      ensures Valid() && w in Model().workers && Rank(w) <= old(Rank(w))
      ensures old(awaits) <= awaits
      ensures stop.Some? ==>
                && !stop.value.Completed? && ExitDue(stop.value, old(awaits))
                && Model().workers[w].phase == PhaseAfter(stop.value)
      ensures stop.None? ==> Is(w, if next.Some? then Head(next.value) else Returned, caps', drained')
      ensures stop.None? && next.None? ==> !state.SlotOf(Key()).running
    {
      var died;
      stop := None;
      match outcome {
        case Done =>
          next, died := AskSlot(w, Ended(Done), caps, drained);
          caps', drained' := 0, drained;
        case DrainCapped =>
          caps', drained', died := caps + 1, drained, false;
          if MAX_CONSECUTIVE_CAPS <= caps' {
            var remainder;
            ghost var until;
            remainder, stop, until := WeighRemainder(w, caps, drained);
            if stop.Some? { return None, caps', drained, stop; }
            if remainder && !drained {
              GoOn(w, Weighed(true), caps', false);
              next, caps', drained' := Some(Append), 0, true;
            } else {
              next, died := AskSlot(w, Weighed(remainder), caps', drained);
            }
          } else {
            GoOn(w, Ended(DrainCapped), caps, drained);
            next := Some(Append);
          }
      }
      if died { stop := Some(Panicked); }
    }

    /** Sessions until the slot has nothing more to offer. Every session lowers the rank, so the worker
        ends, having run at most as many sessions as its rank at the start. */
    method RunWorker(ghost w: WorkerId, initialMode: Mode) returns (r: Exit, ghost sessions: nat)
      requires Valid() && Is(w, Head(initialMode), 0, false)
      modifies this`log, this`requestsLeft, this`clock, this`raws, this`wikis, this`awaits, state
      ensures Valid() && w in Model().workers
      ensures r.Completed? ==> Model().workers[w].phase == Returned && !state.SlotOf(Key()).running
      ensures !r.Completed? ==> Model().workers[w].phase == PhaseAfter(r)
      ensures sessions + Rank(w) <= old(Rank(w))
      ensures old(awaits) <= awaits && ExitDue(r, old(awaits))
    {
      r, sessions := Completed(Done), 0;
      var nextMode := Some(initialMode);
      var consecutiveCaps: nat, remainderDrainUsed := 0, false;
      while nextMode.Some?
        invariant Valid() && w in Model().workers && r.Completed?
        invariant Is(w, if nextMode.Some? then Head(nextMode.value) else Returned, consecutiveCaps, remainderDrainUsed)
        invariant nextMode.None? ==> !state.SlotOf(Key()).running
        invariant sessions + Rank(w) <= old(Rank(w)) && old(awaits) <= awaits
        decreases if nextMode.Some? then Rank(w) + 1 else 0
      {
        r := RunSession(w, nextMode.value, consecutiveCaps, remainderDrainUsed);
        sessions := sessions + 1;
        if !r.Completed? { return; }
        var stop: Option<Exit>;
        nextMode, consecutiveCaps, remainderDrainUsed, stop :=
          FollowSession(w, r.outcome, consecutiveCaps, remainderDrainUsed);
        if stop.Some? { r := stop.value; return; }
      }
    }

    /** The wrapper task. After an error or a panic it releases the slot the way that end calls for and
        the slot is free when it is done. After a normal return the slot was given up by the worker, a
        successor may hold it, and the wrapper only takes its own worker off. */
    method SpawnWorker(ghost w: WorkerId, initialMode: Mode) returns (r: Exit, ghost sessions: nat)
      requires Valid() && Is(w, Head(initialMode), 0, false)
      modifies this`log, this`requestsLeft, this`claimsLeft, this`clock, this`raws, this`wikis, this`awaits,
               this`done, state
      ensures Valid() && w !in Model().workers && claimsLeft <= old(claimsLeft) && old(done) <= done
      ensures r.Completed? ==> LeftQuietly(log, w)
      ensures !r.Completed? ==> !state.SlotOf(Key()).running
      ensures sessions <= old(Rank(w))
      ensures old(awaits) <= awaits && (AllFine(old(awaits), awaits) ==> r.Completed?)
      decreases claimsLeft, 1
    {
      r, sessions := RunWorker(w, initialMode);
      match r {
        case Completed(_) =>
          done := done + {w};
          Outlive(w);
        case Errored =>
          var _ := Await(w);
          state.ReleaseRunningPreservePending(Key());
          Depart(Release(w));
        case Panicked =>
          var _ := Await(w);
          state.ForceIdle(Key());
          Depart(ForceIdle(w));
      }
    }

    /** The wrapper waits for a worker that has returned. Before it wakes, others act; a request may claim
        the slot, and the successor may run for as long as it likes, waking this wrapper at any await. */
    method Outlive(ghost w: WorkerId)
      requires Valid() && w in done
      modifies this`log, this`requestsLeft, this`claimsLeft, this`clock, this`raws, this`wikis, this`awaits,
               this`done, state
      ensures Valid() && w !in Model().workers && LeftQuietly(log, w)
      ensures claimsLeft <= old(claimsLeft) && old(done) <= done && old(awaits) <= awaits
      decreases claimsLeft, 0
    {
      var deeds := oracle.deeds(awaits);
      awaits := awaits + 1;
      for i := 0 to |deeds|
        invariant Valid() && w in done && claimsLeft <= old(claimsLeft) && old(done) <= done && old(awaits) <= awaits
      {
        match deeds[i] {
          case TimePasses(now) =>
            if clock <= now {
              clock := now;
              Note(Tick(now));
            }
          case Commit(raw) =>
            if !HasId(raws, raw.id) && 0 < raw.createdAt <= clock {
              raws := Insert(raws, raw);
              Note(InsertRaw(raw));
            }
          case AppendNotice =>
            if 0 < claimsLeft { Arrive(Append); }
          case ManualRequest(concept) =>
            if 0 < claimsLeft { Arrive(Manual(concept)); }
          case WrapperWakes(u) =>
            WakeAny(u);
        }
      }
      WakeAny(w);
    }

    /** A request between a worker's return and its wrapper's end; when it claims the slot, the successor runs. */
    method Arrive(mode: Mode)
      requires Valid() && 0 < claimsLeft
      modifies this`log, this`requestsLeft, this`claimsLeft, this`clock, this`raws, this`wikis, this`awaits,
               this`done, state
      ensures Valid() && claimsLeft < old(claimsLeft) && old(done) <= done && old(awaits) <= awaits
      decreases claimsLeft - 1, 2
    {
      claimsLeft := claimsLeft - 1;
      var spawned, u := Submit(mode);
      if spawned.Some? {
        var _, _ := SpawnWorker(u, spawned.value);
      }
    }

    /** A wrapper wakes: its worker goes, every other worker, the slot and the data stay as they are. */
    ghost method WakeAny(u: WorkerId)
      requires Valid()
      modifies this`log
      ensures Valid() && (u in done ==> u !in Model().workers && LeftQuietly(log, u))
      ensures Model() == old(Model()) || Model() == old(Model().(workers := Model().workers - {u}))
    {
      if u in Model().workers && Model().workers[u].phase.Returned? {
        Note(Leave(u));
      }
    }

    ghost method Depart(e: Event)
      requires Logged() && Enabled(Model(), e) && (e.Leave? || e.Release? || e.ForceIdle?)
      modifies this`log
      ensures Logged() && Model() == Apply(old(Model()), e) && e.w !in Model().workers
    {
      Note(e);
    }

    // ----- coordinator -----

    /** `notify_append` and `request_manual`: claim the slot and spawn, or leave a note in it. */
    method Submit(mode: Mode) returns (spawned: Option<Mode>, ghost w: WorkerId)
      requires Valid()
      modifies this`log, state
      ensures Valid() && spawned.Some? == !old(state.SlotOf(Key()).running)
      ensures spawned.Some? ==> Is(w, Head(spawned.value), 0, false) && state.SlotOf(Key()).running
      ensures spawned.None? ==> Model().workers == old(Model().workers)
    {
      w := UnusedId(Model().workers.Keys + done);
      ghost var e := if mode.Append? then NotifyAppend(w) else RequestManual(w, mode.concept);
      var outcome := state.TryStart(Key(), mode);
      Note(e);
      spawned := if outcome.Started? then Some(outcome.mode) else None;
    }
  }
}
