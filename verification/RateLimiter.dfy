/** The token buckets of the tool dispatcher, over real-valued time. */
module RateLimiter {

  datatype Tier = Tier(name: string, perMinute: nat)

  const READ_TIER := Tier("read", 600)
  const WRITE_TIER := Tier("write", 60)
  const HEAVY_TIER := Tier("heavy", 6)

  function TierOf(tool: string): Tier
  {
    match tool
    case "raw_append" => WRITE_TIER
    case "schema_update" => WRITE_TIER
    case "wiki_rebuild" => HEAVY_TIER
    case "export" => HEAVY_TIER
    case _ => READ_TIER
  }

  /** The name of a tier decides its budget, so buckets keyed by it never mix two. */
  lemma NameDecidesTier(a: string, b: string)
    requires TierOf(a).name == TierOf(b).name
    ensures TierOf(a) == TierOf(b)
  {
  }

  datatype Bucket = Bucket(tokens: real, lastRefill: real)

  datatype Key = Key(user: string, tier: string)

  // ----- one bucket, with time measured in the tokens it brings -----

  function Min(x: real, y: real): real { if x < y then x else y }

  predicate Granted(level: real) { level >= 1.0 }

  function Spent(level: real): real { if Granted(level) then level - 1.0 else level }

  /** The level found by the last check of a bucket that the first check creates full. */
  function Level(cap: real, ticks: seq<real>): real
    requires ticks != []
  {
    var n := |ticks| - 1;
    if n == 0 then cap
    else Min(Spent(Level(cap, ticks[..n])) + (ticks[n] - ticks[n - 1]), cap)
  }

  predicate InOrder(times: seq<real>)
  {
    forall i, j :: 0 <= i <= j < |times| ==> times[i] <= times[j]
  }

  /** How many of the checks i..j are granted. */
  function Grants(cap: real, ticks: seq<real>, i: nat, j: nat): nat
    requires i <= j <= |ticks|
  {
    if i == j then 0 else Grants(cap, ticks, i, j - 1) + if Granted(Level(cap, ticks[..j])) then 1 else 0
  }

  lemma {:induction false} LevelInRange(cap: real, ticks: seq<real>)
    requires 0.0 <= cap && ticks != [] && InOrder(ticks)
    ensures 0.0 <= Level(cap, ticks) <= cap
  {
    if |ticks| > 1 { LevelInRange(cap, ticks[..|ticks| - 1]); }
  }

  lemma StepLevel(cap: real, ticks: seq<real>, j: nat)
    requires 0 < j < |ticks|
    ensures Level(cap, ticks[..j + 1]) == Min(Spent(Level(cap, ticks[..j])) + (ticks[j] - ticks[j - 1]), cap)
  {
    assert ticks[..j + 1][..j] == ticks[..j];
  }

  /** What was granted in a window plus what is left was there before or trickled in. */
  lemma {:induction false} WindowAccount(cap: real, ticks: seq<real>, i: nat, j: nat)
    requires InOrder(ticks) && i < j <= |ticks|
    ensures Grants(cap, ticks, i, j) as real + Spent(Level(cap, ticks[..j])) <=
            Level(cap, ticks[..i + 1]) + (ticks[j - 1] - ticks[i])
  {
    if j == i + 1 {
      assert Grants(cap, ticks, i, i) == 0;
    } else {
      WindowAccount(cap, ticks, i, j - 1);
      StepLevel(cap, ticks, j - 1);
      var before, level := Spent(Level(cap, ticks[..j - 1])), Level(cap, ticks[..j]);
      assert level <= before + (ticks[j - 1] - ticks[j - 2]);
      assert Grants(cap, ticks, i, j) == Grants(cap, ticks, i, j - 1) + if Granted(level) then 1 else 0;
    }
  }

  lemma GrantsAreBounded(cap: real, ticks: seq<real>, i: nat, j: nat)
    requires 0.0 <= cap && InOrder(ticks) && i < j <= |ticks|
    ensures Grants(cap, ticks, i, j) as real <= cap + (ticks[j - 1] - ticks[i])
  {
    WindowAccount(cap, ticks, i, j);
    LevelInRange(cap, ticks[..i + 1]);
    LevelInRange(cap, ticks[..j]);
  }

  ghost predicate AllGranted(cap: real, ticks: seq<real>)
  {
    forall j :: 0 < j <= |ticks| ==> Granted(Level(cap, ticks[..j]))
  }

  lemma {:induction false} AllCounted(cap: real, ticks: seq<real>, i: nat, j: nat)
    requires AllGranted(cap, ticks) && i <= j <= |ticks|
    ensures Grants(cap, ticks, i, j) == j - i
  {
    if i < j { AllCounted(cap, ticks, i, j - 1); }
  }

  /** The level is at most what any window ending here leaves of its budget ... */
  lemma LevelBelow(cap: real, ticks: seq<real>, i: nat, j: nat)
    requires InOrder(ticks) && i < j <= |ticks|
    ensures Level(cap, ticks[..j]) <= cap + (ticks[j - 1] - ticks[i]) - Grants(cap, ticks, i, j - 1) as real
  {
    AtMostFull(cap, ticks[..i + 1]);
    if j > i + 1 {
      WindowAccount(cap, ticks, i, j - 1);
      StepLevel(cap, ticks, j - 1);
    }
  }

  lemma AtMostFull(cap: real, ticks: seq<real>)
    requires ticks != []
    ensures Level(cap, ticks) <= cap
  {
  }

  /** ... and some window leaves exactly that, however many checks were refused. */
  lemma {:induction false} TightWindow(cap: real, ticks: seq<real>, j: nat) returns (i: nat)
    requires 0 < j <= |ticks|
    ensures i < j
    ensures Level(cap, ticks[..j]) == cap + (ticks[j - 1] - ticks[i]) - Grants(cap, ticks, i, j - 1) as real
  {
    if j == 1 {
      i := 0;
    } else {
      StepLevel(cap, ticks, j - 1);
      if Level(cap, ticks[..j]) == cap {
        i := j - 1;
      } else {
        i := TightWindow(cap, ticks, j - 1);
      }
    }
  }

  lemma {:induction false} GrantsAtMost(cap: real, ticks: seq<real>, i: nat, j: nat)
    requires i <= j <= |ticks|
    ensures Grants(cap, ticks, i, j) <= j - i
  {
    if i < j { GrantsAtMost(cap, ticks, i, j - 1); }
  }

  // ----- the same in seconds -----

  function Cap(tier: Tier): real { tier.perMinute as real }

  /** Tokens per second. */
  function Rate(tier: Tier): real { tier.perMinute as real / 60.0 }

  function Tick(tier: Tier, time: real): real { time * Rate(tier) }

  function Ticks(tier: Tier, times: seq<real>): (t: seq<real>)
    ensures |t| == |times|
  {
    seq(|times|, i requires 0 <= i < |times| => Tick(tier, times[i]))
  }

  lemma Distribute(a: real, b: real, c: real)
    ensures a * c - b * c == (a - b) * c
  {
  }

  lemma Scales(a: real, b: real, c: real)
    requires a <= b && 0.0 <= c
    ensures a * c <= b * c
  {
  }

  lemma TicksInOrder(tier: Tier, times: seq<real>)
    requires InOrder(times)
    ensures InOrder(Ticks(tier, times))
  {
    forall i, j | 0 <= i <= j < |times| ensures Ticks(tier, times)[i] <= Ticks(tier, times)[j] {
      Scales(times[i], times[j], Rate(tier));
    }
  }

  /** A full bucket plus what trickles in over the window of the checks i..j. */
  function Budget(tier: Tier, times: seq<real>, i: nat, j: nat): real
    requires i < j <= |times|
  {
    tier.perMinute as real + (times[j - 1] - times[i]) * (tier.perMinute as real / 60.0)
  }

  lemma BudgetInTicks(tier: Tier, times: seq<real>, i: nat, j: nat)
    requires i < j <= |times|
    ensures Budget(tier, times, i, j) == Cap(tier) + (Ticks(tier, times)[j - 1] - Ticks(tier, times)[i])
  {
    Distribute(times[j - 1], times[i], Rate(tier));
  }

  /** Any window of any schedule is granted at most its budget. */
  lemma WindowBound(tier: Tier, times: seq<real>, i: nat, j: nat)
    requires InOrder(times) && i < j <= |times|
    ensures Grants(Cap(tier), Ticks(tier, times), i, j) as real <= Budget(tier, times, i, j)
  {
    TicksInOrder(tier, times);
    GrantsAreBounded(Cap(tier), Ticks(tier, times), i, j);
    BudgetInTicks(tier, times, i, j);
  }

  /** Every window asks for no more than its budget. */
  ghost predicate Conforms(tier: Tier, times: seq<real>)
  {
    forall i, j :: 0 <= i < j <= |times| ==> (j - i) as real <= Budget(tier, times, i, j)
  }

  /** The limiter refuses nobody who keeps to the budget, and only them: a schedule is granted in
      full exactly when each of its windows conforms. */
  lemma GrantedIffConforming(tier: Tier, times: seq<real>)
    requires InOrder(times)
    ensures AllGranted(Cap(tier), Ticks(tier, times)) <==> Conforms(tier, times)
  {
    if AllGranted(Cap(tier), Ticks(tier, times)) {
      forall i, j | 0 <= i < j <= |times| ensures (j - i) as real <= Budget(tier, times, i, j) {
        AllCounted(Cap(tier), Ticks(tier, times), i, j);
        WindowBound(tier, times, i, j);
      }
    }
    if Conforms(tier, times) { ConformingIsGranted(tier, times, |times|); }
  }

  lemma {:induction false} ConformingIsGranted(tier: Tier, times: seq<real>, n: nat)
    requires Conforms(tier, times) && n <= |times|
    ensures forall j :: 0 < j <= n ==> Granted(Level(Cap(tier), Ticks(tier, times)[..j]))
  {
    if n == 0 {
    } else {
      ConformingIsGranted(tier, times, n - 1);
      var i := TightWindow(Cap(tier), Ticks(tier, times), n);
      BudgetInTicks(tier, times, i, n);
      GrantsAtMost(Cap(tier), Ticks(tier, times), i, n - 1);
      assert (n - i) as real <= Budget(tier, times, i, n);
    }
  }

  // ----- the exact answer -----

  /** What the limiter promises for the j-th check, without buckets: it is granted exactly when every
      window ending with it stays within its budget, this grant and the earlier ones counted. */
  ghost predicate Permitted(tier: Tier, times: seq<real>, j: nat)
    requires 0 < j <= |times|
    decreases j, 0
  {
    forall i: nat :: i < j ==> (Given(tier, times, i, j - 1) + 1) as real <= Budget(tier, times, i, j)
  }

  /** How many of the checks i..k are permitted. */
  ghost function Given(tier: Tier, times: seq<real>, i: nat, k: nat): nat
    requires i <= k <= |times|
    decreases k, 1
  {
    if i == k then 0 else Given(tier, times, i, k - 1) + if Permitted(tier, times, k) then 1 else 0
  }

  lemma {:induction false} GivenIsGrants(tier: Tier, times: seq<real>, i: nat, k: nat)
    requires InOrder(times) && i <= k <= |times|
    ensures Given(tier, times, i, k) == Grants(Cap(tier), Ticks(tier, times), i, k)
    decreases k, 1
  {
    if i == k {
    } else {
      GivenIsGrants(tier, times, i, k - 1);
      GrantedIffPermitted(tier, times, k);
    }
  }

  /** The bucket answers every check of every schedule, refusals included, exactly by that rule. */
  lemma {:induction false} GrantedIffPermitted(tier: Tier, times: seq<real>, j: nat)
    requires InOrder(times) && 0 < j <= |times|
    ensures Granted(Level(Cap(tier), Ticks(tier, times)[..j])) <==> Permitted(tier, times, j)
    decreases j, 0
  {
    var cap, ticks := Cap(tier), Ticks(tier, times);
    TicksInOrder(tier, times);
    if Granted(Level(cap, ticks[..j])) {
      forall i: nat | i < j ensures (Given(tier, times, i, j - 1) + 1) as real <= Budget(tier, times, i, j) {
        GivenIsGrants(tier, times, i, j - 1);
        LevelBelow(cap, ticks, i, j);
        BudgetInTicks(tier, times, i, j);
      }
    }
    if Permitted(tier, times, j) {
      var i := TightWindow(cap, ticks, j);
      GivenIsGrants(tier, times, i, j - 1);
      BudgetInTicks(tier, times, i, j);
      assert (Given(tier, times, i, j - 1) + 1) as real <= Budget(tier, times, i, j);
    }
  }

  // ----- the limiter -----

  /** The bucket belongs to this schedule of checks and is what the schedule makes of it. */
  ghost predicate Explained(tier: Tier, entry: Bucket, schedule: seq<real>, clock: real)
  {
    schedule != [] && InOrder(schedule) && schedule[|schedule| - 1] <= clock && LeftBy(tier, entry, schedule, clock)
  }

  ghost predicate AllExplained(tiers: map<string, Tier>, buckets: map<Key, Bucket>, times: map<Key, seq<real>>,
                               clock: real)
  {
    && buckets.Keys == times.Keys
    && (forall k :: k in buckets ==> k.tier in tiers && Explained(tiers[k.tier], buckets[k], times[k], clock))
  }

  lemma ExplainedLater(tier: Tier, entry: Bucket, schedule: seq<real>, clock: real, now: real)
    requires Explained(tier, entry, schedule, clock) && clock <= now
    ensures Explained(tier, entry, schedule, now)
  {
  }

  lemma OthersStayExplained(tiers: map<string, Tier>, buckets: map<Key, Bucket>, times: map<Key, seq<real>>,
                            clock: real, key: Key, tier: Tier, entry: Bucket, schedule: seq<real>, now: real)
    requires AllExplained(tiers, buckets, times, clock) && clock <= now
    requires key.tier == tier.name && (tier.name in tiers ==> tiers[tier.name] == tier)
    requires Explained(tier, entry, schedule, now)
    ensures AllExplained(tiers[tier.name := tier], buckets[key := entry], times[key := schedule], now)
  {
    var tiers', buckets', times' := tiers[tier.name := tier], buckets[key := entry], times[key := schedule];
    forall k | k in buckets' ensures k.tier in tiers' && Explained(tiers'[k.tier], buckets'[k], times'[k], now) {
      if k == key {
        assert tiers'[k.tier] == tier && buckets'[k] == entry && times'[k] == schedule;
      } else {
        assert buckets'[k] == buckets[k] && times'[k] == times[k] && tiers'[k.tier] == tiers[k.tier];
        ExplainedLater(tiers[k.tier], buckets[k], times[k], clock, now);
      }
    }
  }

  class Limiter {
    var buckets: map<Key, Bucket>
    /** The check times of every user and tier since the limiter was made. */
    ghost var times: map<Key, seq<real>>
    ghost var tiers: map<string, Tier>
    ghost var clock: real

    ghost predicate Valid()
      reads this
    {
      AllExplained(tiers, buckets, times, clock)
    }

    constructor ()
      ensures Valid() && buckets == map[] && tiers == map[]
    {
      buckets, times, tiers, clock := map[], map[], map[], 0.0;
    }

    ghost function Schedule(k: Key): seq<real>
      reads this
    {
      if k in times then times[k] else []
    }

    /** `check`, with the tier's parameters fixed per name, as `NameDecidesTier` finds them. */
    method Check(user: string, tier: Tier, now: real) returns (allowed: bool)
      requires Valid() && clock <= now
      requires tier.name in tiers ==> tiers[tier.name] == tier
      modifies this
      ensures Valid() && clock == now && tiers == old(tiers)[tier.name := tier]
      ensures times == old(times)[Key(user, tier.name) := old(Schedule(Key(user, tier.name))) + [now]]
      ensures allowed <==> Granted(Level(Cap(tier), Ticks(tier, old(Schedule(Key(user, tier.name))) + [now])))
      ensures var schedule := old(Schedule(Key(user, tier.name))) + [now];
              allowed <==> Permitted(tier, schedule, |schedule|)
      ensures exists b: Bucket :: 0.0 <= b.tokens <= Cap(tier) && buckets == old(buckets)[Key(user, tier.name) := b]
    {
      var k := Key(user, tier.name);
      var entry := if k in buckets then buckets[k] else Bucket(tier.perMinute as real, now);
      var left: Bucket;
      allowed, left := Spend(tier, entry, now, Schedule(k));
      OthersStayExplained(tiers, buckets, times, clock, k, tier, left, Schedule(k) + [now], now);
      times := times[k := Schedule(k) + [now]];
      buckets := buckets[k := left];
      tiers := tiers[tier.name := tier];
      clock := now;
    }
  }

  /** Refill, then take one token if there is one. */
  method Spend(tier: Tier, entry: Bucket, now: real, ghost before: seq<real>) returns (allowed: bool, left: Bucket)
    requires LeftBy(tier, entry, before, now) && InOrder(before) && (before != [] ==> before[|before| - 1] <= now)
    ensures allowed <==> Granted(Level(Cap(tier), Ticks(tier, before + [now])))
    ensures allowed <==> Permitted(tier, before + [now], |before| + 1)
    ensures Explained(tier, left, before + [now], now) && 0.0 <= left.tokens <= Cap(tier)
  {
    var tokens := Refill(tier, entry, now, before);
    allowed := tokens >= 1.0;
    if allowed { tokens := tokens - 1.0; }
    left := Bucket(tokens, now);
    ghost var schedule := before + [now];
    GrantedIffPermitted(tier, schedule, |schedule|);
    assert Ticks(tier, schedule)[..|schedule|] == Ticks(tier, schedule);
  }

  /** The level a check finds: `per_minute / 60` tokens per second, up to the capacity. */
  function Refilled(tier: Tier, entry: Bucket, now: real): real
  {
    Min(entry.tokens + (now - entry.lastRefill) * Rate(tier), Cap(tier))
  }

  predicate LeftBy(tier: Tier, entry: Bucket, before: seq<real>, now: real)
  {
    if before == [] then entry == Bucket(Cap(tier), now)
    else entry == Bucket(Spent(Level(Cap(tier), Ticks(tier, before))), before[|before| - 1])
  }

  method Refill(tier: Tier, entry: Bucket, now: real, ghost before: seq<real>) returns (tokens: real)
    requires LeftBy(tier, entry, before, now) && InOrder(before) && (before != [] ==> before[|before| - 1] <= now)
    ensures tokens == Level(Cap(tier), Ticks(tier, before + [now])) && 0.0 <= tokens <= Cap(tier)
  {
    tokens := AddElapsed(tier, entry, now);
    ScheduledLevel(tier, entry, before, now);
  }

  method AddElapsed(tier: Tier, entry: Bucket, now: real) returns (tokens: real)
    ensures tokens == Refilled(tier, entry, now)
  {
    var elapsed := now - entry.lastRefill;
    var refill := elapsed * (tier.perMinute as real / 60.0);
    tokens := Min(entry.tokens + refill, tier.perMinute as real);
  }

  /** The bucket that a schedule leaves behind refills to the level its next check finds. */
  lemma ScheduledLevel(tier: Tier, entry: Bucket, before: seq<real>, now: real)
    requires LeftBy(tier, entry, before, now) && InOrder(before) && (before != [] ==> before[|before| - 1] <= now)
    ensures Refilled(tier, entry, now) == Level(Cap(tier), Ticks(tier, before + [now]))
    ensures 0.0 <= Refilled(tier, entry, now) <= Cap(tier)
  {
    TicksSnoc(tier, before, now);
    RefillInTicks(tier, entry, now);
    TicksInOrder(tier, before + [now]);
    LevelInRange(Cap(tier), Ticks(tier, before + [now]));
    if before != [] {
      var n := |before|;
      assert Ticks(tier, before + [now])[..n] == Ticks(tier, before);
      assert Ticks(tier, before)[n - 1] == Tick(tier, entry.lastRefill);
    }
  }

  lemma RefillInTicks(tier: Tier, entry: Bucket, now: real)
    ensures Refilled(tier, entry, now) ==
            Min(entry.tokens + (Tick(tier, now) - Tick(tier, entry.lastRefill)), Cap(tier))
  {
    Distribute(now, entry.lastRefill, Rate(tier));
  }

  lemma TicksSnoc(tier: Tier, before: seq<real>, now: real)
    ensures Ticks(tier, before + [now]) == Ticks(tier, before) + [Tick(tier, now)]
  {
    var all := before + [now];
    forall i | 0 <= i < |all| ensures Ticks(tier, all)[i] == (Ticks(tier, before) + [Tick(tier, now)])[i] {
      assert Ticks(tier, all)[i] == Tick(tier, all[i]);
      assert i < |before| ==> all[i] == before[i];
    }
  }
}
