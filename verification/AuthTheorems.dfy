/** What every run of the authorization server keeps: one holder per authorization, its client and
    user, and the books of redemptions, refreshes and answers. */
module AuthTheorems {
  import opened Wrappers
  import opened AuthSessions
  import opened AuthProtocol

  lemma AfterSnoc(run: seq<Event>, e: Event)
    ensures After(run + [e]) == Apply(After(run), e)
  {
    assert (run + [e])[..|run|] == run;
  }

  lemma {:induction false} RunIsSafe(run: seq<Event>)
    ensures Unique(After(run)) && Numbered(After(run))
  {
    if run == [] {
    } else {
      RunIsSafe(run[..|run| - 1]);
      EventIsSafe(After(run[..|run| - 1]), run[|run| - 1]);
    }
  }

  // ----- one right per authorization -----

  function Places(s: Server): set<Place>
  {
    (set k | k in s.pending :: InPending(k)) + (set q | q in s.callbacks :: InCallback(q)) +
    (set k | k in s.codes :: InCode(k)) + (set q | q in s.grants :: InGrant(q)) + (set h | h in s.tokens :: InToken(h))
  }

  /** Every place that holds the right of authorization `tag`. */
  function Holding(s: Server, tag: nat): set<Place>
  {
    set p | p in Places(s) && HolderAt(s, p).Some? && HolderAt(s, p).value.tag == tag
  }

  lemma HoldingMisses(s: Server, p: Place)
    requires HolderAt(s, p).Some?
    ensures p in Holding(s, HolderAt(s, p).value.tag)
  {
  }

  /** Pending entry, callback in flight, stored code, grant in flight and unrevoked refresh token
      together: at most one, in every interleaving. */
  lemma OneHolder(run: seq<Event>, tag: nat)
    ensures |Holding(After(run), tag)| <= 1
  {
    RunIsSafe(run);
    var held := Holding(After(run), tag);
    if held != {} {
      var p :| p in held;
      assert held == {p};
    }
  }

  lemma {:induction false} Lineage(run: seq<Event>, more: seq<Event>)
    ensures Descends(After(run), After(run + more))
  {
    if more == [] {
      assert run + more == run;
    } else {
      var n := |more| - 1;
      Lineage(run, more[..n]);
      assert run + more == (run + more[..n]) + [more[n]];
      AfterSnoc(run + more[..n], more[n]);
      RunIsSafe(run + more[..n]);
      EventIsSafe(After(run + more[..n]), more[n]);
      DescendsThrough(After(run), After(run + more[..n]), After(run + more));
    }
  }

  lemma DescendsThrough(s: Server, t: Server, u: Server)
    requires Descends(s, t) && Descends(t, u)
    ensures Descends(s, u)
  {
    forall q | HolderAt(u, q).Some? && HolderAt(u, q).value.tag < s.next
      ensures exists p :: HolderAt(s, p).Some? && Continues(HolderAt(s, p).value, p, HolderAt(u, q).value, q)
    {
      var m :| HolderAt(t, m).Some? && Continues(HolderAt(t, m).value, m, HolderAt(u, q).value, q);
      var p :| HolderAt(s, p).Some? && Continues(HolderAt(s, p).value, p, HolderAt(t, m).value, m);
    }
  }

  /** The client of an authorization never changes, its user never changes once the callback set it,
      and it never moves back to an earlier stage. */
  lemma ClaimIsFixed(run: seq<Event>, more: seq<Event>, p: Place, q: Place)
    requires HolderAt(After(run), p).Some? && HolderAt(After(run + more), q).Some?
    requires HolderAt(After(run), p).value.tag == HolderAt(After(run + more), q).value.tag
    ensures Continues(HolderAt(After(run), p).value, p, HolderAt(After(run + more), q).value, q)
  {
    RunIsSafe(run);
    Lineage(run, more);
  }

  /** A right that was used up, refused, evicted, expired or revoked never comes back. */
  lemma GoneForGood(run: seq<Event>, more: seq<Event>, tag: nat)
    requires tag < After(run).next && Holding(After(run), tag) == {}
    ensures Holding(After(run + more), tag) == {}
  {
    Lineage(run, more);
    if q :| q in Holding(After(run + more), tag) {
      var d := HolderAt(After(run + more), q).value;
      var p :| HolderAt(After(run), p).Some? && Continues(HolderAt(After(run), p).value, p, d, q);
      HoldingMisses(After(run), p);
    }
  }

  /** When its only holder goes and nothing else comes, nobody holds the right. */
  lemma NobodyHolds(s: Server, t: Server, gone: Place)
    requires Unique(s) && Keeps(s, t) && HolderAt(s, gone).Some? && HolderAt(t, gone) == None
    ensures Holding(t, HolderAt(s, gone).value.tag) == {}
  {
  }

  /** Revoking the current refresh token of an authorization ends that authorization. */
  lemma RevocationIsFinal(run: seq<Event>, hash: string, more: seq<Event>)
    requires HolderAt(After(run), InToken(hash)).Some?
    ensures Holding(After(run + [Revoke(hash)] + more), After(run).tokens[hash].tag) == {}
  {
    AfterSnoc(run, Revoke(hash));
    RunIsSafe(run);
    EventKeeps(After(run), Revoke(hash));
    NobodyHolds(After(run), After(run + [Revoke(hash)]), InToken(hash));
    GoneForGood(run + [Revoke(hash)], more, After(run).tokens[hash].tag);
  }

  /** A stored code that is presented with anything wrong is burned, and its authorization with it. */
  lemma WrongPresentationIsFinal(run: seq<Event>, e: Event, more: seq<Event>)
    requires e.Redeem? && Taken(After(run).codes, After(run).now, e.code).Some? && Redeemed(After(run), e) == None
    ensures Holding(After(run + [e] + more), After(run).codes[e.code].value.right.tag) == {}
  {
    AfterSnoc(run, e);
    RunIsSafe(run);
    EventKeeps(After(run), e);
    NobodyHolds(After(run), After(run + [e]), InCode(e.code));
    GoneForGood(run + [e], more, After(run).codes[e.code].value.right.tag);
  }

  // ----- the books of one authorization -----

  ghost function Count(run: seq<Event>, what: (Server, Event) -> bool): nat
  {
    if run == [] then 0
    else Count(run[..|run| - 1], what) + if what(After(run[..|run| - 1]), run[|run| - 1]) then 1 else 0
  }

  /** The right goes into a token request by a code. */
  predicate Redeems(tag: nat, s: Server, e: Event)
  {
    e.Redeem? && Redeemed(s, e).Some? && Redeemed(s, e).value.right.tag == tag
  }

  /** The right goes into a token request by a refresh token. */
  predicate Refreshes(tag: nat, s: Server, e: Event)
  {
    e.UseRefresh? && Usable(s.tokens, e.hash, e.asOf) && s.tokens[e.hash].tag == tag
  }

  /** A token request answers with a refresh token. */
  predicate Stores(tag: nat, s: Server, e: Event)
  {
    e.StoreRefresh? && e.req in s.grants && e.hash !in s.tokens && s.grants[e.req].tag == tag
  }

  /** A token request answers, with or without a refresh token. */
  predicate Answers(tag: nat, s: Server, e: Event)
  {
    Stores(tag, s, e) || (e.IssueAccessOnly? && e.req in s.grants && s.grants[e.req].tag == tag)
  }

  datatype Kind = Unredeemed | Granted | Stored

  function KindOf(p: Place): Kind
  {
    if p.InGrant? then Granted else if p.InToken? then Stored else Unredeemed
  }

  ghost predicate Held(s: Server, tag: nat, k: Kind)
  {
    exists p :: HolderAt(s, p).Some? && HolderAt(s, p).value.tag == tag && KindOf(p) == k
  }

  function One(b: bool): nat { if b then 1 else 0 }

  datatype Books = Books(redeemed: nat, refreshed: nat, stored: nat, answered: nat)

  ghost function BooksOf(run: seq<Event>, tag: nat): Books
  {
    Books(Count(run, (s, e) => Redeems(tag, s, e)), Count(run, (s, e) => Refreshes(tag, s, e)),
          Count(run, (s, e) => Stores(tag, s, e)), Count(run, (s, e) => Answers(tag, s, e)))
  }

  function Booked(b: Books, tag: nat, s: Server, e: Event): Books
  {
    Books(b.redeemed + One(Redeems(tag, s, e)), b.refreshed + One(Refreshes(tag, s, e)),
          b.stored + One(Stores(tag, s, e)), b.answered + One(Answers(tag, s, e)))
  }

  ghost predicate Balanced(b: Books, tag: nat, s: Server)
  {
    && b.redeemed + One(Held(s, tag, Unredeemed) || s.next <= tag) <= 1
    && b.refreshed + One(Held(s, tag, Stored)) <= b.stored
    && b.stored <= b.answered
    && b.answered + One(Held(s, tag, Granted)) <= b.redeemed + b.refreshed
  }

  lemma KeptKinds(s: Server, t: Server, tag: nat)
    requires Keeps(s, t)
    ensures forall k :: Held(t, tag, k) ==> Held(s, tag, k)
  {
  }

  lemma CreatedKinds(s: Server, t: Server, to: Place, tag: nat)
    requires Numbered(s) && Creates(s, t, to)
    ensures forall k :: Held(t, tag, k) ==> Held(s, tag, k) || (tag == s.next && k == Unredeemed)
    ensures tag >= s.next ==> forall k :: !Held(s, tag, k)
  {
  }

  lemma CarriedKinds(s: Server, t: Server, from: Place, to: Place, tag: nat)
    requires Unique(s) && Carries(s, t, from, to)
    ensures HolderAt(s, from).value.tag != tag ==> forall k :: Held(t, tag, k) ==> Held(s, tag, k)
    ensures HolderAt(s, from).value.tag == tag ==> forall k :: Held(t, tag, k) ==> k == KindOf(to)
    ensures HolderAt(s, from).value.tag == tag ==> forall k :: Held(s, tag, k) <==> k == KindOf(from)
  {
  }

  lemma AnsweredKinds(s: Server, e: Event, tag: nat)
    requires Unique(s) && e.IssueAccessOnly? && Keeps(s, Apply(s, e))
    ensures forall k :: Held(Apply(s, e), tag, k) ==> Held(s, tag, k)
    ensures e.req in s.grants && s.grants[e.req].tag == tag ==>
              Held(s, tag, Granted) && !Held(Apply(s, e), tag, Granted)
  {
    if e.req in s.grants { assert HolderAt(s, InGrant(e.req)).Some?; }
  }

  lemma CarriedBooks(b: Books, tag: nat, s: Server, e: Event)
    requires Unique(s) && Numbered(s) && Balanced(b, tag, s) && Route(s, e).Some?
    ensures Balanced(Booked(b, tag, s, e), tag, Apply(s, e))
  {
    EventCarries(s, e);
    CarriedKinds(s, Apply(s, e), Route(s, e).value.0, Route(s, e).value.1, tag);
  }

  lemma BookKeeping(b: Books, tag: nat, s: Server, e: Event)
    requires Unique(s) && Numbered(s) && Balanced(b, tag, s)
    ensures Balanced(Booked(b, tag, s, e), tag, Apply(s, e))
  {
    if Route(s, e).Some? {
      CarriedBooks(b, tag, s, e);
    } else if e.Authorize? {
      EventCreates(s, e);
      CreatedKinds(s, Apply(s, e), InPending(e.key), tag);
    } else {
      EventKeeps(s, e);
      if e.IssueAccessOnly? { AnsweredKinds(s, e, tag); } else { KeptKinds(s, Apply(s, e), tag); }
    }
  }

  lemma {:induction false} BooksBalance(run: seq<Event>, tag: nat)
    ensures Balanced(BooksOf(run, tag), tag, After(run))
  {
    if run == [] {
    } else {
      var init := run[..|run| - 1];
      BooksBalance(init, tag);
      RunIsSafe(init);
      BookKeeping(BooksOf(init, tag), tag, After(init), run[|run| - 1]);
    }
  }

  /** Each authorization is redeemed at most once, each refresh token is used at most once, no more are
      used than were stored, and every answer is paid for by one redemption or one use of a refresh token. */
  lemma SingleUse(run: seq<Event>, tag: nat)
    ensures var b := BooksOf(run, tag);
            b.redeemed <= 1 && b.refreshed <= b.stored <= b.answered <= b.redeemed + b.refreshed
    ensures forall hash :: Uses(run, hash) <= 1
  {
    BooksBalance(run, tag);
    forall hash ensures Uses(run, hash) <= 1 { AcceptedOnce(run, hash); }
  }

  /** This very refresh token is accepted. */
  predicate Accepts(hash: string, s: Server, e: Event)
  {
    e.UseRefresh? && e.hash == hash && Usable(s.tokens, hash, e.asOf)
  }

  ghost function Uses(run: seq<Event>, hash: string): nat
  {
    Count(run, (s, e) => Accepts(hash, s, e))
  }

  predicate IsRevoked(s: Server, hash: string)
  {
    hash in s.tokens && s.tokens[hash].revokedAt.Some?
  }

  /** Nothing takes a revocation back, and accepting a token revokes it. */
  lemma RevokedStays(s: Server, e: Event, hash: string)
    requires IsRevoked(s, hash) || Accepts(hash, s, e)
    ensures IsRevoked(Apply(s, e), hash)
  {
  }

  /** Each refresh token is accepted at most once in any run, and is revoked from then on. */
  lemma {:induction false} AcceptedOnce(run: seq<Event>, hash: string)
    ensures Uses(run, hash) <= 1
    ensures Uses(run, hash) == 1 ==> IsRevoked(After(run), hash)
  {
    if run == [] {
    } else {
      var n := |run| - 1;
      var s := After(run[..n]);
      AcceptedOnce(run[..n], hash);
      if IsRevoked(s, hash) || Accepts(hash, s, run[n]) { RevokedStays(s, run[n], hash); }
    }
  }

  // ----- what stands behind an answer -----

  /** `/authorize` opened this right, for this client, address and challenge. */
  ghost predicate Authorized(run: seq<Event>, r: Right)
  {
    exists i :: 0 <= i < |run| && run[i].Authorize? && After(run[..i]).next == r.tag &&
      run[i].clientId == r.clientId && run[i].redirectUri == r.redirectUri && run[i].codeChallenge == r.codeChallenge
  }

  /** The callback that held this right, still without a user, was told this one. */
  ghost predicate Identified(run: seq<Event>, r: Right, userId: string)
  {
    exists i :: 0 <= i < |run| && run[i].FindUser? && run[i].userId == userId &&
      run[i].req in After(run[..i]).callbacks && After(run[..i]).callbacks[run[i].req] == Callback(r, None)
  }

  /** The code of this very right and user was redeemed, presented with the right's own challenge,
      client and address. */
  ghost predicate Presented(run: seq<Event>, r: Right, userId: string)
  {
    exists i :: 0 <= i < |run| && run[i].Redeem? && Redeemed(After(run[..i]), run[i]) == Some(AuthCode(r, userId)) &&
      run[i].challenge == r.codeChallenge && run[i].client == Some(r.clientId) && run[i].redirect == Some(r.redirectUri)
  }

  ghost predicate Vouched(run: seq<Event>, tag: nat, clientId: string, userId: string)
  {
    exists r: Right ::
      && r.tag == tag && r.clientId == clientId
      && Authorized(run, r) && Identified(run, r, userId) && Presented(run, r, userId)
  }

  lemma VouchersStay(run: seq<Event>, e: Event)
    ensures forall r :: Authorized(run, r) ==> Authorized(run + [e], r)
    ensures forall r, u :: Identified(run, r, u) ==> Identified(run + [e], r, u)
    ensures forall r, u :: Presented(run, r, u) ==> Presented(run + [e], r, u)
    ensures forall t, c, u :: Vouched(run, t, c, u) ==> Vouched(run + [e], t, c, u)
  {
    var now := run + [e];
    forall i | 0 <= i < |run| ensures now[..i] == run[..i] && now[i] == run[i] { }
    forall r | Authorized(run, r) ensures Authorized(now, r) {
      var i :| 0 <= i < |run| && run[i].Authorize? && After(run[..i]).next == r.tag &&
        run[i].clientId == r.clientId && run[i].redirectUri == r.redirectUri && run[i].codeChallenge == r.codeChallenge;
      assert now[..i] == run[..i] && now[i] == run[i];
    }
    forall r, u | Identified(run, r, u) ensures Identified(now, r, u) {
      var i :| 0 <= i < |run| && run[i].FindUser? && run[i].userId == u &&
        run[i].req in After(run[..i]).callbacks && After(run[..i]).callbacks[run[i].req] == Callback(r, None);
      assert now[..i] == run[..i] && now[i] == run[i];
    }
    forall r, u | Presented(run, r, u) ensures Presented(now, r, u) {
      var i :| 0 <= i < |run| && run[i].Redeem? && Redeemed(After(run[..i]), run[i]) == Some(AuthCode(r, u)) &&
        run[i].challenge == r.codeChallenge && run[i].client == Some(r.clientId) &&
        run[i].redirect == Some(r.redirectUri);
      assert now[..i] == run[..i] && now[i] == run[i];
    }
  }

  ghost predicate PendingVouched(run: seq<Event>, pending: Sessions<Right>)
  {
    forall k :: k in pending ==> Authorized(run, pending[k].value)
  }

  ghost predicate Knows(run: seq<Event>, r: Right, userId: Option<string>)
  {
    Authorized(run, r) && (userId.Some? ==> Identified(run, r, userId.value))
  }

  ghost predicate CallbacksVouched(run: seq<Event>, callbacks: map<nat, Callback>)
  {
    forall q :: q in callbacks ==> Knows(run, callbacks[q].right, callbacks[q].userId)
  }

  ghost predicate CodesVouched(run: seq<Event>, codes: Sessions<AuthCode>)
  {
    forall k :: k in codes ==> Knows(run, codes[k].value.right, Some(codes[k].value.userId))
  }

  ghost predicate GrantsVouched(run: seq<Event>, grants: map<nat, Grant>)
  {
    forall q :: q in grants ==> Vouched(run, grants[q].tag, grants[q].clientId, grants[q].userId)
  }

  ghost predicate TokensVouched(run: seq<Event>, tokens: Tokens)
  {
    forall h :: h in tokens ==> Vouched(run, tokens[h].tag, tokens[h].clientId, tokens[h].userId)
  }

  ghost predicate AllVouched(run: seq<Event>, s: Server)
  {
    && PendingVouched(run, s.pending) && CallbacksVouched(run, s.callbacks) && CodesVouched(run, s.codes)
    && GrantsVouched(run, s.grants) && TokensVouched(run, s.tokens)
  }

  /** The event tells a callback its user. */
  predicate Names(s: Server, e: Event)
  {
    e.FindUser? && e.req in s.callbacks && s.callbacks[e.req].userId == None
  }

  /** What an event adds to the vouchers of the run it ends. */
  lemma EventVouches(run: seq<Event>, e: Event)
    ensures var s, now := After(run), run + [e];
            (e.Authorize? ==> Authorized(now, Right(s.next, e.clientId, e.redirectUri, e.codeChallenge))) &&
            (Names(s, e) ==> Identified(now, s.callbacks[e.req].right, e.userId)) &&
            (e.Redeem? && Redeemed(s, e).Some? ==>
               Presented(now, Redeemed(s, e).value.right, Redeemed(s, e).value.userId))
  {
    var now := run + [e];
    assert now[..|run|] == run && now[|run|] == e;
  }

  lemma PendingStaysVouched(now: seq<Event>, s: Server, e: Event)
    requires PendingVouched(now, s.pending)
    requires e.Authorize? ==> Authorized(now, Right(s.next, e.clientId, e.redirectUri, e.codeChallenge))
    ensures PendingVouched(now, Apply(s, e).pending)
  {
  }

  lemma CallbacksStayVouched(now: seq<Event>, s: Server, e: Event)
    requires PendingVouched(now, s.pending) && CallbacksVouched(now, s.callbacks)
    requires Names(s, e) ==> Identified(now, s.callbacks[e.req].right, e.userId)
    ensures CallbacksVouched(now, Apply(s, e).callbacks)
  {
  }

  lemma CodesStayVouched(now: seq<Event>, s: Server, e: Event)
    requires CallbacksVouched(now, s.callbacks) && CodesVouched(now, s.codes)
    ensures CodesVouched(now, Apply(s, e).codes)
  {
  }

  lemma GrantsStayVouched(now: seq<Event>, s: Server, e: Event)
    requires CodesVouched(now, s.codes) && GrantsVouched(now, s.grants) && TokensVouched(now, s.tokens)
    requires e.Redeem? && Redeemed(s, e).Some? ==>
               Presented(now, Redeemed(s, e).value.right, Redeemed(s, e).value.userId)
    ensures GrantsVouched(now, Apply(s, e).grants)
  {
    if e.Redeem? && Redeemed(s, e).Some? {
      var entry := Redeemed(s, e).value;
      assert Knows(now, entry.right, Some(entry.userId));
      assert Vouched(now, entry.right.tag, entry.right.clientId, entry.userId);
    }
  }

  /** A token row keeps its right, and a new one takes it over from the grant it answers. */
  lemma TokenOrigin(s: Server, e: Event, h: string)
    requires h in Apply(s, e).tokens
    ensures var row := Apply(s, e).tokens[h];
            if h in s.tokens
            then row == s.tokens[h].(revokedAt := row.revokedAt)
            else e.StoreRefresh? && e.req in s.grants &&
                 Grant(row.tag, row.userId, row.clientId) == s.grants[e.req]
  {
  }

  lemma TokensStayVouched(now: seq<Event>, s: Server, e: Event)
    requires GrantsVouched(now, s.grants) && TokensVouched(now, s.tokens)
    ensures TokensVouched(now, Apply(s, e).tokens)
  {
    forall h | h in Apply(s, e).tokens
      ensures var row := Apply(s, e).tokens[h]; Vouched(now, row.tag, row.clientId, row.userId)
    {
      TokenOrigin(s, e, h);
    }
  }

  lemma {:induction false} RunVouches(run: seq<Event>)
    ensures AllVouched(run, After(run))
  {
    if run == [] {
    } else {
      var init, e := run[..|run| - 1], run[|run| - 1];
      assert run == init + [e];
      RunVouches(init);
      VouchersStay(init, e);
      EventVouches(init, e);
      PendingStaysVouched(run, After(init), e);
      CallbacksStayVouched(run, After(init), e);
      CodesStayVouched(run, After(init), e);
      GrantsStayVouched(run, After(init), e);
      TokensStayVouched(run, After(init), e);
    }
  }

  /** No answer without an `/authorize` of that client, a callback of it that was told that user, and
      the redemption of its own code, presented with the challenge, client and address it was opened with. */
  lemma {:induction false} AnswersAreVouched(run: seq<Event>, tag: nat, e: Event)
    requires Answers(tag, After(run), e)
    ensures var g := After(run).grants[e.req]; g.tag == tag && Vouched(run, tag, g.clientId, g.userId)
  {
    RunVouches(run);
  }
}
