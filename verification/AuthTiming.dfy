/** Expiry over whole runs: what a request takes was put there by an event of the run, and is taken
    strictly before the expiry that event gave it. */
module AuthTiming {
  import opened Wrappers
  import opened AuthSessions
  import opened AuthProtocol
  import opened AuthTheorems

  // ----- who is accepted -----

  /** A refresh token is accepted exactly when its row is there, unrevoked, and its expiry to come. */
  lemma RefreshAccepted(s: Server, e: Event)
    requires e.UseRefresh? && e.req !in s.grants
    ensures e.req in Apply(s, e).grants <==>
            e.hash in s.tokens && s.tokens[e.hash].revokedAt == None && e.asOf < s.tokens[e.hash].expiresAt
  {
  }

  /** A code is redeemed exactly when it stands unexpired and everything presented is its own. */
  lemma CodeAccepted(s: Server, e: Event)
    requires e.Redeem? && e.req !in s.grants
    ensures e.req in Apply(s, e).grants <==>
            && e.code in s.codes && s.now < s.codes[e.code].expiresAt
            && var right := s.codes[e.code].value.right;
            && e.challenge == right.codeChallenge && e.client == Some(right.clientId)
            && e.redirect == Some(right.redirectUri)
  {
  }

  /** A callback takes its pending entry exactly when that stands unexpired. */
  lemma CallbackAccepted(s: Server, e: Event)
    requires e.TakePending? && e.req !in s.callbacks
    ensures e.req in Apply(s, e).callbacks <==> e.key in s.pending && s.now < s.pending[e.key].expiresAt
  {
  }

  // ----- what was put there -----

  /** The event at `j` stored this refresh token. */
  ghost predicate StoresToken(run: seq<Event>, j: nat, hash: string)
  {
    && j < |run| && run[j].StoreRefresh? && run[j].hash == hash
    && run[j].req in After(run[..j]).grants && hash !in After(run[..j]).tokens
  }

  ghost predicate TokenOf(run: seq<Event>, hash: string, expiresAt: int)
  {
    exists j: nat :: StoresToken(run, j, hash) && run[j].expiresAt == expiresAt
  }

  /** The event at `j` put this code. */
  ghost predicate PutsCode(run: seq<Event>, j: nat, code: string)
  {
    j < |run| && run[j].StoreCode? && run[j].code == code && run[j].req in After(run[..j]).callbacks
  }

  ghost predicate CodeOf(run: seq<Event>, code: string, expiresAt: int)
  {
    exists j: nat :: PutsCode(run, j, code) && expiresAt == After(run[..j]).now + 60_000
  }

  /** The event at `j` put this pending entry. */
  ghost predicate Opens(run: seq<Event>, j: nat, key: string)
  {
    j < |run| && run[j].Authorize? && run[j].key == key
  }

  ghost predicate PendingOf(run: seq<Event>, key: string, expiresAt: int)
  {
    exists j: nat :: Opens(run, j, key) && expiresAt == After(run[..j]).now + 600_000
  }

  lemma OriginsStay(run: seq<Event>, e: Event)
    ensures forall h, x :: TokenOf(run, h, x) ==> TokenOf(run + [e], h, x)
    ensures forall k, x :: CodeOf(run, k, x) ==> CodeOf(run + [e], k, x)
    ensures forall k, x :: PendingOf(run, k, x) ==> PendingOf(run + [e], k, x)
  {
    var now := run + [e];
    forall j: nat | j < |run| ensures now[..j] == run[..j] && now[j] == run[j] { }
    forall h, x | TokenOf(run, h, x) ensures TokenOf(now, h, x) {
      var j: nat :| StoresToken(run, j, h) && run[j].expiresAt == x;
      assert now[..j] == run[..j] && StoresToken(now, j, h);
    }
    forall k, x | CodeOf(run, k, x) ensures CodeOf(now, k, x) {
      var j: nat :| PutsCode(run, j, k) && x == After(run[..j]).now + 60_000;
      assert now[..j] == run[..j] && PutsCode(now, j, k);
    }
    forall k, x | PendingOf(run, k, x) ensures PendingOf(now, k, x) {
      var j: nat :| Opens(run, j, k) && x == After(run[..j]).now + 600_000;
      assert now[..j] == run[..j] && Opens(now, j, k);
    }
  }

  /** A row of the token table after the event was there before, or the event stored it. */
  lemma TokenPut(run: seq<Event>, e: Event, h: string)
    requires h in Apply(After(run), e).tokens
    ensures var s, t := After(run), Apply(After(run), e);
            if h in s.tokens then t.tokens[h].expiresAt == s.tokens[h].expiresAt
            else TokenOf(run + [e], h, t.tokens[h].expiresAt)
  {
    var now := run + [e];
    assert now[..|run|] == run && now[|run|] == e;
    if h !in After(run).tokens { assert StoresToken(now, |run|, h); }
  }

  lemma CodePut(run: seq<Event>, e: Event, k: string)
    requires k in Apply(After(run), e).codes
    ensures var s, t := After(run), Apply(After(run), e);
            (k in s.codes && t.codes[k] == s.codes[k]) || CodeOf(run + [e], k, t.codes[k].expiresAt)
  {
    var now := run + [e];
    assert now[..|run|] == run && now[|run|] == e;
    if e.StoreCode? && e.code == k && e.req in After(run).callbacks { assert PutsCode(now, |run|, k); }
  }

  lemma PendingPut(run: seq<Event>, e: Event, k: string)
    requires k in Apply(After(run), e).pending
    ensures var s, t := After(run), Apply(After(run), e);
            (k in s.pending && t.pending[k] == s.pending[k]) || PendingOf(run + [e], k, t.pending[k].expiresAt)
  {
    var now := run + [e];
    assert now[..|run|] == run && now[|run|] == e;
    if e.Authorize? && e.key == k { assert Opens(now, |run|, k); }
  }

  /** Every entry and every row has the expiry that the event which put it there gave it. */
  lemma {:induction false} ExpiriesHaveOrigins(run: seq<Event>)
    ensures forall h :: h in After(run).tokens ==> TokenOf(run, h, After(run).tokens[h].expiresAt)
    ensures forall k :: k in After(run).codes ==> CodeOf(run, k, After(run).codes[k].expiresAt)
    ensures forall k :: k in After(run).pending ==> PendingOf(run, k, After(run).pending[k].expiresAt)
  {
    if run == [] {
    } else {
      var init, e := run[..|run| - 1], run[|run| - 1];
      assert run == init + [e];
      ExpiriesHaveOrigins(init);
      OriginsStay(init, e);
      forall h | h in After(run).tokens ensures TokenOf(run, h, After(run).tokens[h].expiresAt) {
        TokenPut(init, e, h);
      }
      forall k | k in After(run).codes ensures CodeOf(run, k, After(run).codes[k].expiresAt) { CodePut(init, e, k); }
      forall k | k in After(run).pending ensures PendingOf(run, k, After(run).pending[k].expiresAt) {
        PendingPut(init, e, k);
      }
    }
  }

  // ----- in time -----

  /** Every use of a refresh token that gets anywhere happens strictly before the expiry given when
      that token was stored. */
  lemma RefreshInTime(run: seq<Event>, e: Event)
    requires e.UseRefresh? && e.req !in After(run).grants && e.req in After(run + [e]).grants
    ensures exists j: nat :: StoresToken(run, j, e.hash) && e.asOf < run[j].expiresAt
  {
    AfterSnoc(run, e);
    RefreshAccepted(After(run), e);
    ExpiriesHaveOrigins(run);
    var x := After(run).tokens[e.hash].expiresAt;
    assert TokenOf(run, e.hash, x);
  }

  /** Every redemption happens within a minute of the callback that stored the code, by the clock. */
  lemma CodeInTime(run: seq<Event>, e: Event)
    requires e.Redeem? && e.req !in After(run).grants && e.req in After(run + [e]).grants
    ensures exists j: nat :: PutsCode(run, j, e.code) && After(run).now < After(run[..j]).now + 60_000
  {
    AfterSnoc(run, e);
    CodeAccepted(After(run), e);
    ExpiriesHaveOrigins(run);
    var x := After(run).codes[e.code].expiresAt;
    assert CodeOf(run, e.code, x);
  }

  /** Every callback that goes on comes within ten minutes of its `/authorize`, by the clock. */
  lemma CallbackInTime(run: seq<Event>, e: Event)
    requires e.TakePending? && e.req !in After(run).callbacks && e.req in After(run + [e]).callbacks
    ensures exists j: nat :: Opens(run, j, e.key) && After(run).now < After(run[..j]).now + 600_000
  {
    AfterSnoc(run, e);
    CallbackAccepted(After(run), e);
    ExpiriesHaveOrigins(run);
    var x := After(run).pending[e.key].expiresAt;
    assert PendingOf(run, e.key, x);
  }
}
