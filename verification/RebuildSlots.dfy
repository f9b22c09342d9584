/** The per-owner single-flight slot: claim, continue-or-release, and the two failure releases. */
module RebuildSlots {
  import opened Wrappers
  import opened Storage

  datatype OwnerKey = OwnerKey(scope: Scope, ownerId: string)

  datatype Mode = Append | Manual(concept: Option<string>)

  datatype Slot = Slot(running: bool, manualPending: Option<Mode>, appendMissed: bool)

  const DEFAULT_SLOT := Slot(false, None, false)

  datatype StartOutcome = Started(mode: Mode) | AlreadyRunning | Pending

  /** A full rebuild absorbs everything; otherwise the incoming request wins. */
  function MergePending(existing: Option<Mode>, incoming: Mode): Mode
  {
    match (existing, incoming)
    case (Some(Manual(None)), _) => Manual(None)
    case (_, Manual(None)) => Manual(None)
    case (_, m) => m
  }

  function Claim(s: Slot, mode: Mode): (Slot, StartOutcome)
  {
    if s.running then
      if mode.Append? then (s.(appendMissed := true), AlreadyRunning)
      else (s.(manualPending := Some(MergePending(s.manualPending, mode))), Pending)
    else if s.appendMissed && mode.Manual? then
      (Slot(true, Some(MergePending(s.manualPending, mode)), false), Started(Append))
    else
      (Slot(true, s.manualPending, s.appendMissed && mode.Manual?), Started(mode))
  }

  function Continue(s: Slot): (Slot, Option<Mode>)
  {
    if s.appendMissed then (s.(appendMissed := false), Some(Append))
    else if s.manualPending.Some? then (s.(manualPending := None), s.manualPending)
    else (s.(running := false), None)
  }

  // ----- what the pending request stands for -----

  /** The requests folded into the slot since it was last emptied, as the user would put it:
      a full rebuild if any of them asked for one, else the latest. */
  function PendingOf(asked: seq<Option<string>>): Option<Mode>
  {
    if asked == [] then None
    else if None in asked then Some(Manual(None))
    else Some(Manual(asked[|asked| - 1]))
  }

  lemma MergeIsPendingOf(asked: seq<Option<string>>, concept: Option<string>)
    ensures Some(MergePending(PendingOf(asked), Manual(concept))) == PendingOf(asked + [concept])
  {
    assert (None in asked + [concept]) == (None in asked || concept == None);
  }

  // ----- the shared map -----

  /** The mutex-guarded map: every method is one critical section. */
  class StateMap {
    var inner: map<OwnerKey, Slot>

    constructor ()
      ensures inner == map[]
    {
      inner := map[];
    }

    function SlotOf(key: OwnerKey): Slot
      reads this
    {
      if key in inner then inner[key] else DEFAULT_SLOT
    }

    /** No other owner's slot moves. */
    twostate predicate OnlyTouches(key: OwnerKey)
      reads this
    {
      forall k :: k != key ==> SlotOf(k) == old(SlotOf(k))
    }

    method TryStart(key: OwnerKey, mode: Mode) returns (outcome: StartOutcome)
      modifies this
      ensures (SlotOf(key), outcome) == Claim(old(SlotOf(key)), mode)
      ensures OnlyTouches(key)
    {
      var entry := SlotOf(key);
      if entry.running {
        match mode {
          case Manual(concept) =>
            entry := entry.(manualPending := Some(MergePending(entry.manualPending, Manual(concept))));
            outcome := Pending;
          case Append =>
            entry := entry.(appendMissed := true);
            outcome := AlreadyRunning;
        }
      } else {
        var startingMode := mode;
        if entry.appendMissed && mode.Manual? {
          entry := entry.(appendMissed := false);
          entry := entry.(manualPending := Some(MergePending(entry.manualPending, mode)));
          startingMode := Append;
        } else if entry.appendMissed && mode.Append? {
          entry := entry.(appendMissed := false);
        }
        entry := entry.(running := true);
        outcome := Started(startingMode);
      }
      inner := inner[key := entry];
    }

    method MarkIdleOrContinue(key: OwnerKey) returns (next: Option<Mode>)
      modifies this
      ensures (SlotOf(key), next) == Continue(old(SlotOf(key)))
      ensures OnlyTouches(key)
    {
      var entry := SlotOf(key);
      if entry.appendMissed {
        entry := entry.(appendMissed := false);
        next := Some(Append);
      } else if entry.manualPending.Some? {
        next := entry.manualPending;
        entry := entry.(manualPending := None);
      } else {
        entry := entry.(running := false);
        next := None;
      }
      inner := inner[key := entry];
    }

    method ForceIdle(key: OwnerKey)
      modifies this
      ensures SlotOf(key) == DEFAULT_SLOT
      ensures OnlyTouches(key)
    {
      if key in inner {
        inner := inner[key := Slot(false, None, false)];
      }
    }

    method ReleaseRunningPreservePending(key: OwnerKey)
      modifies this
      ensures SlotOf(key) == old(SlotOf(key)).(running := false)
      ensures OnlyTouches(key)
    {
      if key in inner {
        inner := inner[key := inner[key].(running := false)];
      }
    }
  }
}
