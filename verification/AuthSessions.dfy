/** The expiring, capped maps that hold authorization sessions between two requests. */
module AuthSessions {
  import opened Wrappers

  /** MAX_PENDING_AUTHS and MAX_AUTH_CODES */
  const MAX_ENTRIES := 10_000

  datatype Entry<V> = Entry(value: V, expiresAt: int)

  type Sessions<V> = map<string, Entry<V>>

  function Live<V>(m: Sessions<V>, now: int): Sessions<V>
  {
    map k | k in m && m[k].expiresAt > now :: m[k]
  }

  ghost predicate IsOldest<V>(m: Sessions<V>, key: string)
  {
    key in m && forall k :: k in m ==> m[key].expiresAt <= m[k].expiresAt
  }

  /** The map after a put whose eviction, when the cap asks for one, hits `victim`. */
  function PutIn<V>(m: Sessions<V>, now: int, key: string, entry: Entry<V>, victim: Option<string>): Sessions<V>
  {
    var kept := if victim.Some? then Live(m, now) - {victim.value} else Live(m, now);
    kept[key := entry]
  }

  function TakeOut<V>(m: Sessions<V>, now: int, key: string): Sessions<V>
  {
    Live(m, now) - {key}
  }

  function Taken<V>(m: Sessions<V>, now: int, key: string): Option<Entry<V>>
  {
    if key in m && m[key].expiresAt > now then Some(m[key]) else None
  }

  // ----- histories -----

  datatype Op<V> =
    | Put(key: string, entry: Entry<V>, now: int, victim: Option<string>)
    | Take(key: string, now: int, got: Option<Entry<V>>)

  function State<V>(ops: seq<Op<V>>): Sessions<V>
  {
    if ops == [] then map[]
    else
      var m := State(ops[..|ops| - 1]);
      match ops[|ops| - 1]
      case Put(key, entry, now, victim) => PutIn(m, now, key, entry, victim)
      case Take(key, now, _) => TakeOut(m, now, key)
  }

  /** What the code lets happen next: an eviction exactly at the cap, and then of an oldest entry. */
  ghost predicate Allowed<V>(m: Sessions<V>, op: Op<V>)
  {
    match op
    case Put(_, _, now, victim) =>
      if |Live(m, now)| < MAX_ENTRIES then victim == None
      else victim.Some? && IsOldest(Live(m, now), victim.value)
    case Take(key, now, got) => got == Taken(m, now, key)
  }

  ghost predicate Legal<V>(ops: seq<Op<V>>)
  {
    ops == [] || (Legal(ops[..|ops| - 1]) && Allowed(State(ops[..|ops| - 1]), ops[|ops| - 1]))
  }

  /** The in-place map; its history is what the theorems below are about. */
  class SessionMap<V> {
    var entries: Sessions<V>
    ghost var history: seq<Op<V>>

    ghost predicate Valid()
      reads this
    {
      Legal(history) && entries == State(history)
    }

    constructor ()
      ensures Valid() && history == []
    {
      entries := map[];
      history := [];
    }

    /** `put_pending` and `put_code` */
    method Put(key: string, entry: Entry<V>, now: int)
      requires Valid()
      modifies this
      ensures Valid()
      ensures |history| == |old(history)| + 1 && history[..|old(history)|] == old(history)
      ensures var op := history[|old(history)|]; op.Put? && op.key == key && op.entry == entry && op.now == now
    {
      Retain(now);
      ghost var victim: Option<string> := None;
      if |entries| >= MAX_ENTRIES {
        var oldest := OldestKey(entries);
        victim := Some(oldest);
        entries := entries - {oldest};
      }
      entries := entries[key := entry];
      history := history + [Op.Put(key, entry, now, victim)];
      assert history[..|old(history)|] == old(history);
    }

    /** `take_pending` and `take_code` */
    method Take(key: string, now: int) returns (got: Option<Entry<V>>)
      requires Valid()
      modifies this
      ensures Valid() && history == old(history) + [Op.Take(key, now, got)]
    {
      Retain(now);
      got := if key in entries then Some(entries[key]) else None;
      entries := entries - {key};
      history := history + [Op.Take(key, now, got)];
      assert history[..|old(history)|] == old(history);
    }

    method Retain(now: int)
      modifies this`entries
      ensures entries == Live(old(entries), now)
    {
      entries := map k | k in entries && entries[k].expiresAt > now :: entries[k];
    }
  }

  /** `min_by_key` over the iterator, in whatever order it delivers the keys. */
  method OldestKey<V>(m: Sessions<V>) returns (oldest: string)
    requires |m| > 0
    ensures IsOldest(m, oldest)
  {
    var rest := m.Keys;
    assert |m.Keys| == |m|;
    oldest :| oldest in rest;
    rest := rest - {oldest};
    while rest != {}
      invariant oldest in m && rest <= m.Keys
      invariant forall k :: k in m && k !in rest ==> m[oldest].expiresAt <= m[k].expiresAt
      decreases |rest|
    {
      var k :| k in rest;
      rest := rest - {k};
      if m[k].expiresAt < m[oldest].expiresAt { oldest := k; }
    }
  }

  // ----- theorems over all histories -----

  lemma LiveSize<V>(m: Sessions<V>, now: int)
    ensures |Live(m, now)| <= |m|
  {
    var live := Live(m, now);
    assert live.Keys <= m.Keys;
    assert m.Keys == live.Keys + (m.Keys - live.Keys);
    assert |live.Keys| == |live| && |m.Keys| == |m|;
  }

  lemma WithoutSize<V>(m: Sessions<V>, key: string)
    ensures |m - {key}| == if key in m then |m| - 1 else |m|
  {
    assert (m - {key}).Keys == m.Keys - {key};
    assert |(m - {key}).Keys| == |m - {key}| && |m.Keys| == |m|;
  }

  lemma WithSize<V>(m: Sessions<V>, key: string, entry: Entry<V>)
    ensures |m[key := entry]| <= |m| + 1
  {
    var w := m[key := entry];
    assert w.Keys == m.Keys + {key};
    assert |w.Keys| == |w| && |m.Keys| == |m|;
  }

  /** However often sessions are opened and abandoned, at most 10,000 are kept. */
  lemma {:induction false} SizeIsCapped<V>(ops: seq<Op<V>>)
    requires Legal(ops)
    ensures |State(ops)| <= MAX_ENTRIES
  {
    if ops == [] {
    } else {
      SizeIsCapped(ops[..|ops| - 1]);
      var m, op := State(ops[..|ops| - 1]), ops[|ops| - 1];
      LiveSize(m, op.now);
      match op
      case Put(key, entry, now, victim) =>
        if victim.Some? { WithoutSize(Live(m, now), victim.value); }
        WithSize(if victim.Some? then Live(m, now) - {victim.value} else Live(m, now), key, entry);
      case Take(key, now, _) => WithoutSize(Live(m, now), key);
    }
  }

  predicate Touches<V>(op: Op<V>, key: string)
  {
    op.key == key || (op.Put? && op.victim == Some(key))
  }

  /** The put at `i` is the latest under its key and nothing has taken, evicted or outlived it. */
  ghost predicate Standing<V>(ops: seq<Op<V>>, i: nat, key: string, entry: Entry<V>)
  {
    && i < |ops| && ops[i].Put? && ops[i].key == key && ops[i].entry == entry
    && forall j :: i < j < |ops| ==> !Touches(ops[j], key) && ops[j].now < entry.expiresAt
  }

  /** An operation that does not put the key keeps its standing put unless it touches or outlives it. */
  lemma StandingSnoc<V>(ops: seq<Op<V>>, op: Op<V>, key: string, entry: Entry<V>)
    requires !(op.Put? && op.key == key)
    ensures (exists i: nat :: Standing(ops + [op], i, key, entry)) <==>
            (exists i: nat :: Standing(ops, i, key, entry)) && !Touches(op, key) && op.now < entry.expiresAt
  {
    var all := ops + [op];
    assert all[|ops|] == op;
    if i: nat :| Standing(all, i, key, entry) {
      assert i < |ops| && ops[i] == all[i];
      forall j | i < j < |ops| ensures !Touches(ops[j], key) && ops[j].now < entry.expiresAt {
        assert all[j] == ops[j];
      }
      assert Standing(ops, i, key, entry);
    }
    if i: nat :| Standing(ops, i, key, entry) && !Touches(op, key) && op.now < entry.expiresAt {
      assert Standing(all, i, key, entry);
    }
  }

  /** The map holds exactly the standing puts, whatever the clock did. */
  lemma {:induction false} HoldsStandingPuts<V>(ops: seq<Op<V>>, key: string, entry: Entry<V>)
    ensures (key in State(ops) && State(ops)[key] == entry) <==> exists i: nat :: Standing(ops, i, key, entry)
  {
    if ops == [] {
    } else {
      var n := |ops| - 1;
      var init, op := ops[..n], ops[n];
      HoldsStandingPuts(init, key, entry);
      if op.Put? && op.key == key {
        forall i: nat | i < n ensures !Standing(ops, i, key, entry) { assert Touches(ops[n], key); }
        if op.entry == entry { assert Standing(ops, n, key, entry); }
      } else {
        StandingSnoc(init, op, key, entry);
        assert ops == init + [op];
      }
    }
  }

  /** A take gives back exactly the latest value put under its key, if that was not taken, evicted
      or expired since. */
  lemma TakeReturnsLatestPut<V>(ops: seq<Op<V>>, key: string, now: int, got: Option<Entry<V>>)
    requires Legal(ops + [Op.Take(key, now, got)])
    ensures forall e :: got == Some(e) <==> now < e.expiresAt && exists i: nat :: Standing(ops, i, key, e)
  {
    assert (ops + [Op.Take(key, now, got)])[..|ops|] == ops;
    forall e ensures got == Some(e) <==> now < e.expiresAt && exists i: nat :: Standing(ops, i, key, e) {
      HoldsStandingPuts(ops, key, e);
    }
  }

  /** No entry is lost to the cap unless 10,000 unexpired puts stand, and none of them expires
      before the victim. */
  lemma EvictionNeedsAFullMap<V>(ops: seq<Op<V>>, key: string, entry: Entry<V>, now: int, victim: string)
    requires Legal(ops + [Op.Put(key, entry, now, Some(victim))])
    ensures exists v: Entry<V>, i: nat :: Standing(ops, i, victim, v) && now < v.expiresAt &&
              exists keys: set<string> :: |keys| == MAX_ENTRIES && victim in keys &&
                forall k :: k in keys ==>
                  exists e: Entry<V>, j: nat :: Standing(ops, j, k, e) && v.expiresAt <= e.expiresAt
  {
    var op := Op.Put(key, entry, now, Some(victim));
    assert (ops + [op])[..|ops|] == ops && (ops + [op])[|ops|] == op;
    assert Legal(ops) && Allowed(State(ops), op);
    var live := Live(State(ops), now);
    SizeIsCapped(ops);
    LiveSize(State(ops), now);
    assert |live.Keys| == |live| == MAX_ENTRIES;
    var v := live[victim];
    HoldsStandingPuts(ops, victim, v);
    var i: nat :| Standing(ops, i, victim, v);
    forall k | k in live.Keys
      ensures exists e: Entry<V>, j: nat :: Standing(ops, j, k, e) && v.expiresAt <= e.expiresAt
    {
      HoldsStandingPuts(ops, k, live[k]);
      var j: nat :| Standing(ops, j, k, live[k]);
    }
    assert Standing(ops, i, victim, v) && now < v.expiresAt;
  }
}
