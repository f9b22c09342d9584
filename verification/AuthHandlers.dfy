/** The handlers of the authorization server as they are written, proved to perform runs of the
    protocol. Other requests, the clock, the client table, Google and the token signer are an oracle
    asked at every await. */
module AuthHandlers {
  import opened Wrappers
  import opened AuthSessions
  import opened AuthProtocol
  import opened AuthTheorems

  /** A row of `oauth_clients`; None is a column whose JSON does not parse. */
  datatype Client = Client(redirectUris: Option<seq<string>>, grantTypes: Option<seq<string>>)

  datatype Lookup = StorageFails | Unknown | Found(client: Client)

  datatype Oracle = Oracle(
    deeds: nat -> seq<Event>, clock: nat -> int, lookup: nat -> Lookup, fails: nat -> bool, text: nat -> string,
    sha256: string -> string, challengeOf: string -> string)

  datatype AuthorizeParams = AuthorizeParams(
    responseType: string, clientId: string, redirectUri: string, codeChallenge: string, codeChallengeMethod: string)

  datatype TokenForm = TokenForm(
    grantType: string, code: Option<string>, redirectUri: Option<string>, clientId: Option<string>,
    codeVerifier: Option<string>, refreshToken: Option<string>)

  datatype Response =
    | Redirect(to: string, code: string)
    | Tokens(userId: string, clientId: string, refreshToken: Option<string>)
    | BadRequest(error: string)
    | ServerError

  datatype Result<T> = Ok(value: T) | Err(response: Response)

  /** Nothing another request does carries the number of this one. */
  predicate Foreign(e: Event, req: nat)
  {
    match e
    case TakePending(_, r) => r != req
    case FindUser(r, _) => r != req
    case StoreCode(r, _, _) => r != req
    case Redeem(_, _, _, _, r) => r != req
    case UseRefresh(_, r, _) => r != req
    case IssueAccessOnly(r) => r != req
    case StoreRefresh(r, _, _) => r != req
    case GiveUp(r) => r != req
    case Restart => false
    case _ => true
  }

  lemma ForeignLeaves(s: Server, e: Event, req: nat)
    requires Foreign(e, req)
    ensures req in Apply(s, e).callbacks <==> req in s.callbacks
    ensures req in s.callbacks ==> Apply(s, e).callbacks[req] == s.callbacks[req]
    ensures req in Apply(s, e).grants <==> req in s.grants
    ensures req in s.grants ==> Apply(s, e).grants[req] == s.grants[req]
  {
  }

  /** The right is the one the request asked for. */
  predicate Grants(r: Right, p: AuthorizeParams)
  {
    r.clientId == p.clientId && r.redirectUri == p.redirectUri && r.codeChallenge == p.codeChallenge
  }

  /** Both logs grow by the opening of one right. */
  predicate Opened(own: seq<Event>, own': seq<Event>, run: seq<Event>, run': seq<Event>,
                   key: string, p: AuthorizeParams, victim: Option<string>)
  {
    var e := Event.Authorize(key, p.clientId, p.redirectUri, p.codeChallenge, victim);
    own' == own + [e] && run' == run + [e]
  }

  class AuthServer {
    const oracle: Oracle
    var server: Server
    var awaits: nat
    ghost var run: seq<Event>
    /** The events of the handlers of this object, in order. */
    ghost var own: seq<Event>

    constructor (oracle: Oracle)
      ensures Logged() && run == own == [] && this.oracle == oracle
    {
      this.oracle := oracle;
      server, awaits, run, own := FRESH, 0, [], [];
    }

    ghost predicate Logged()
      reads this
    {
      server == After(run)
    }

    ghost predicate Alone(req: nat)
      reads this
    {
      req !in server.callbacks && req !in server.grants && forall n, e :: e in oracle.deeds(n) ==> Foreign(e, req)
    }

    /** The request `req` ended with this answer, out of the grant it held. */
    ghost predicate Answered(req: nat, r: Response)
      reads this
      requires r.Tokens?
    {
      && run != []
      && var s, e := After(run[..|run| - 1]), run[|run| - 1];
      && req in s.grants && s.grants[req].userId == r.userId && s.grants[req].clientId == r.clientId
      && (r.refreshToken == None ==> e == IssueAccessOnly(req))
      && (r.refreshToken.Some? ==> e.StoreRefresh? && e.req == req && e.hash !in s.tokens)
      && (r.refreshToken.Some? ==> e.hash == oracle.sha256(r.refreshToken.value))
    }

    ghost method Log(e: Event)
      requires server == Apply(After(run), e)
      modifies this`run
      ensures Logged() && run == old(run) + [e]
    {
      run := run + [e];
      assert run[..|run| - 1] == old(run);
    }

    method Do(e: Event)
      requires Logged()
      modifies this`server, this`run, this`own
      ensures Logged() && run == old(run) + [e] && own == old(own) + [e]
      ensures server == Apply(old(server), e)
    {
      server := Apply(server, e);
      own := own + [e];
      Log(e);
    }

    /** Other requests move, then this one reads the clock again. */
    method Await(req: nat)
      requires Logged() && forall n, e :: e in oracle.deeds(n) ==> Foreign(e, req)
      modifies this`server, this`run, this`awaits
      ensures Logged() && old(run) <= run && awaits == old(awaits) + 1
      ensures req in server.callbacks <==> req in old(server).callbacks
      ensures req in server.callbacks ==> server.callbacks[req] == old(server).callbacks[req]
      ensures req in server.grants <==> req in old(server).grants
      ensures req in server.grants ==> server.grants[req] == old(server).grants[req]
    {
      var deeds := oracle.deeds(awaits) + [ClockReads(oracle.clock(awaits))];
      for i := 0 to |deeds|
        invariant Logged() && old(run) <= run && awaits == old(awaits)
        invariant req in server.callbacks <==> req in old(server).callbacks
        invariant req in server.callbacks ==> server.callbacks[req] == old(server).callbacks[req]
        invariant req in server.grants <==> req in old(server).grants
        invariant req in server.grants ==> server.grants[req] == old(server).grants[req]
      {
        ForeignLeaves(server, deeds[i], req);
        server := Apply(server, deeds[i]);
        Log(deeds[i]);
      }
      awaits := awaits + 1;
    }

    /** The key a put evicts: an oldest one, exactly when the live entries fill the map. */
    method Evicted<V>(m: Sessions<V>) returns (victim: Option<string>)
      ensures forall key, e :: Allowed(m, Op.Put(key, e, server.now, victim))
    {
      var live := Live(m, server.now);
      victim := None;
      if |live| >= MAX_ENTRIES {
        var k := OldestKey(live);
        victim := Some(k);
      }
    }

    /** The request ends without passing its right on. */
    method Abandon(req: nat)
      requires Logged()
      modifies this`server, this`run, this`own
      ensures Logged() && run == old(run) + [GiveUp(req)] && own == old(own) + [GiveUp(req)]
      ensures req !in server.callbacks && req !in server.grants
    {
      Do(GiveUp(req));
    }

    /** The put of `authorize`; an eviction hits an oldest entry, exactly at the cap. */
    method PutPending(req: nat, key: string, p: AuthorizeParams)
      requires Logged() && req !in server.callbacks && req !in server.grants
      modifies this`server, this`run, this`own
      ensures Logged() && req !in server.callbacks && req !in server.grants
      ensures key in server.pending && server.pending[key].expiresAt == server.now + 600_000
      ensures Grants(server.pending[key].value, p)
      ensures exists victim :: Opened(old(own), own, old(run), run, key, p, victim) &&
                               Allowed(After(old(run)).pending, Op.Put(key, server.pending[key], server.now, victim))
    {
      var victim := Evicted(server.pending);
      Do(Event.Authorize(key, p.clientId, p.redirectUri, p.codeChallenge, victim));
      assert Opened(old(own), own, old(run), run, key, p, victim);
    }

    method TakePendingEntry(req: nat, state: string) returns (got: Option<Right>)
      requires Logged() && req !in server.callbacks && req !in server.grants
      modifies this`server, this`run, this`own
      ensures Logged() && old(run) <= run && own == old(own) + [TakePending(state, req)]
      ensures req !in server.grants && (got == None ==> req !in server.callbacks)
      ensures got.Some? ==> req in server.callbacks && server.callbacks[req] == Callback(got.value, None)
      ensures got.Some? <==> state in old(server).pending && old(server).now < old(server).pending[state].expiresAt
      ensures got.Some? ==> got.value == old(server).pending[state].value
    {
      var entry := Taken(server.pending, server.now, state);
      Do(TakePending(state, req));
      got := if entry.Some? then Some(entry.value.value) else None;
    }

    method NameUser(req: nat, user: string)
      requires Logged() && req in server.callbacks && server.callbacks[req].userId == None && req !in server.grants
      modifies this`server, this`run, this`own
      ensures Logged() && old(run) <= run && own == old(own) + [FindUser(req, user)]
      ensures req in server.callbacks && req !in server.grants
      ensures server.callbacks[req] == Callback(old(server).callbacks[req].right, Some(user))
    {
      Do(FindUser(req, user));
    }

    method PutCode(req: nat, code: string)
      requires Logged() && req in server.callbacks && server.callbacks[req].userId.Some? && req !in server.grants
      modifies this`server, this`run, this`own
      ensures Logged() && req !in server.callbacks && req !in server.grants
      ensures code in server.codes && server.codes[code].expiresAt == server.now + 60_000
      ensures var holder := old(server).callbacks[req];
              server.codes[code].value == AuthCode(holder.right, holder.userId.value)
      ensures exists victim ::
                && own == old(own) + [StoreCode(req, code, victim)] && run == old(run) + [StoreCode(req, code, victim)]
                && Allowed(old(server).codes, Op.Put(code, server.codes[code], server.now, victim))
    {
      var victim := Evicted(server.codes);
      Do(StoreCode(req, code, victim));
    }

    /** The code stands, has not expired, and is presented with the verifier, client and address it was
        issued for. */
    predicate CodeFits(s: Server, body: TokenForm)
      requires body.code.Some? && body.codeVerifier.Some?
    {
      && body.code.value in s.codes && s.now < s.codes[body.code.value].expiresAt
      && var right := s.codes[body.code.value].value.right;
      && oracle.challengeOf(body.codeVerifier.value) == right.codeChallenge
      && body.clientId == Some(right.clientId) && body.redirectUri == Some(right.redirectUri)
    }

    /** `take_code` and the checks on what was presented. */
    method TakeCode(req: nat, body: TokenForm) returns (r: Result<AuthCode>)
      requires Logged() && req !in server.callbacks && req !in server.grants
      requires body.code.Some? && body.codeVerifier.Some?
      modifies this`server, this`run, this`own
      ensures Logged() && old(run) <= run && own == old(own) + [RedeemEvent(body, req)]
      ensures req !in server.callbacks
      ensures r.Ok? <==> CodeFits(old(server), body)
      ensures r.Ok? ==> r.value == old(server).codes[body.code.value].value
      ensures r.Err? ==> req !in server.grants
      ensures r.Err? ==> r.response == BadRequest("invalid_grant") || r.response == BadRequest("invalid_request")
      ensures r.Ok? ==> req in server.grants && server.grants[req].userId == r.value.userId
      ensures r.Ok? ==> server.grants[req].clientId == r.value.right.clientId
      ensures r.Ok? ==> body.clientId == Some(r.value.right.clientId)
    {
      var computed := oracle.challengeOf(body.codeVerifier.value);
      var entry := Taken(server.codes, server.now, body.code.value);
      Do(RedeemEvent(body, req));
      if entry == None { return Err(BadRequest("invalid_grant")); }
      var code := entry.value.value;
      if computed != code.right.codeChallenge { return Err(BadRequest("invalid_grant")); }
      if body.clientId == None { return Err(BadRequest("invalid_request")); }
      if body.clientId.value != code.right.clientId { return Err(BadRequest("invalid_grant")); }
      if body.redirectUri == None { return Err(BadRequest("invalid_request")); }
      if body.redirectUri.value != code.right.redirectUri { return Err(BadRequest("invalid_grant")); }
      return Ok(code);
    }

    method ValidateAndRevoke(req: nat, hash: string, asOf: int) returns (row: Option<TokenRow>)
      requires Logged() && req !in server.callbacks && req !in server.grants
      modifies this`server, this`run, this`own
      ensures Logged() && own == old(own) + [UseRefresh(hash, req, asOf)]
      ensures run == old(run) + [UseRefresh(hash, req, asOf)]
      ensures row.Some? <==>
                && hash in old(server).tokens && old(server).tokens[hash].revokedAt == None
                && asOf < old(server).tokens[hash].expiresAt
      ensures row.Some? ==> row.value == old(server).tokens[hash] && IsRevoked(server, hash)
      ensures req !in server.callbacks && (row == None ==> req !in server.grants)
      ensures row.Some? ==> req in server.grants && server.grants[req].userId == row.value.userId
      ensures row.Some? ==> server.grants[req].clientId == row.value.clientId
    {
      row := if Usable(server.tokens, hash, asOf) then Some(server.tokens[hash]) else None;
      Do(UseRefresh(hash, req, asOf));
    }

    function RedeemEvent(body: TokenForm, req: nat): Event
      requires body.code.Some? && body.codeVerifier.Some?
    {
      Redeem(body.code.value, oracle.challengeOf(body.codeVerifier.value), body.clientId, body.redirectUri, req)
    }

    function UseEvent(body: TokenForm, req: nat, asOf: int): Event
      requires body.refreshToken.Some?
    {
      UseRefresh(oracle.sha256(body.refreshToken.value), req, asOf)
    }

    /** `authorize`: an admissible request opens one right, any other changes nothing. */
    method Authorize(req: nat, p: AuthorizeParams) returns (r: Response)
      requires Logged() && Alone(req)
      modifies this
      ensures Logged() && old(run) <= run && Alone(req)
      ensures r.Redirect? <==>
                && p.responseType == "code" && p.codeChallengeMethod == "S256"
                && var l := oracle.lookup(old(awaits));
                && l.Found? && l.client.redirectUris.Some? && l.client.grantTypes.Some?
                && p.redirectUri in l.client.redirectUris.value && "authorization_code" in l.client.grantTypes.value
      ensures !r.Redirect? ==> own == old(own)
      ensures r.Redirect? ==> r.to in server.pending && server.pending[r.to].expiresAt == server.now + 600_000
      ensures r.Redirect? ==> Grants(server.pending[r.to].value, p)
      ensures r.Redirect? ==>
                exists before, victim ::
                  && Opened(old(own), own, before, run, r.to, p, victim) && r.to in server.pending
                  && Allowed(After(before).pending, Op.Put(r.to, server.pending[r.to], server.now, victim))
    {
      if p.responseType != "code" { return BadRequest("unsupported_response_type"); }
      if p.codeChallengeMethod != "S256" { return BadRequest("invalid_request"); }
      var answer := oracle.lookup(awaits);
      Await(req);
      if answer.StorageFails? { return ServerError; }
      if answer.Unknown? { return BadRequest("invalid_client"); }
      if answer.client.redirectUris == None { return ServerError; }
      if p.redirectUri !in answer.client.redirectUris.value { return BadRequest("invalid_request"); }
      if answer.client.grantTypes == None { return ServerError; }
      if "authorization_code" !in answer.client.grantTypes.value { return BadRequest("unauthorized_client"); }
      Await(req);
      var csrf := oracle.text(awaits);
      PutPending(req, csrf, p);
      return Redirect(csrf, "");
    }

    /** What the client is told when one of the three calls from await `at` on fails. */
    function GoogleError(at: nat): Response
    {
      if oracle.fails(at) then BadRequest("google_exchange_failed")
      else if oracle.fails(at + 1) then BadRequest("google_userinfo_failed")
      else ServerError
    }

    /** Google's code exchange, its userinfo and `find_or_provision`. */
    method IdentifyUser(req: nat) returns (r: Result<string>)
      requires Logged() && forall n, e :: e in oracle.deeds(n) ==> Foreign(e, req)
      modifies this`server, this`run, this`awaits
      ensures Logged() && old(run) <= run
      ensures r.Ok? <==> !oracle.fails(old(awaits)) && !oracle.fails(old(awaits) + 1) && !oracle.fails(old(awaits) + 2)
      ensures r.Ok? ==> r.value == oracle.text(old(awaits) + 2)
      ensures r.Err? ==> r.response == GoogleError(old(awaits))
      ensures req in server.callbacks <==> req in old(server).callbacks
      ensures req in server.callbacks ==> server.callbacks[req] == old(server).callbacks[req]
      ensures req in server.grants <==> req in old(server).grants
    {
      var failed := oracle.fails(awaits);
      Await(req);
      if failed { return Err(BadRequest("google_exchange_failed")); }
      failed := oracle.fails(awaits);
      Await(req);
      if failed { return Err(BadRequest("google_userinfo_failed")); }
      failed := oracle.fails(awaits);
      var user := oracle.text(awaits);
      Await(req);
      if failed { return Err(ServerError); }
      return Ok(user);
    }

    /** `callback_google`: a taken pending entry ends as one stored code or is lost. */
    method CallbackGoogle(req: nat, state: string) returns (r: Response)
      requires Logged() && Alone(req)
      modifies this
      ensures Logged() && old(run) <= run && Alone(req)
      ensures r.Redirect? ==>
                exists before, user, victim ::
                  && own == old(own) + [TakePending(state, req)] + [FindUser(req, user)] +
                            [StoreCode(req, r.code, victim)]
                  && run == before + [StoreCode(req, r.code, victim)] && r.code in server.codes
                  && Allowed(After(before).codes, Op.Put(r.code, server.codes[r.code], server.now, victim))
      ensures r.Redirect? <==>
                && state in old(server).pending && old(server).now < old(server).pending[state].expiresAt
                && !oracle.fails(old(awaits)) && !oracle.fails(old(awaits) + 1) && !oracle.fails(old(awaits) + 2)
      ensures r.Redirect? ==>
                && r.code in server.codes && server.codes[r.code].expiresAt == server.now + 60_000
                && server.codes[r.code].value ==
                     AuthCode(old(server).pending[state].value, oracle.text(old(awaits) + 2))
                && r.to == old(server).pending[state].value.redirectUri
      ensures !r.Redirect? ==> r == BadRequest("invalid_state") || r == GoogleError(old(awaits))
      ensures !r.Redirect? ==>
                || own == old(own) + [TakePending(state, req)]
                || own == old(own) + [TakePending(state, req)] + [GiveUp(req)]
    {
      var pending := TakePendingEntry(req, state);
      if pending == None { return BadRequest("invalid_state"); }
      r := FinishCallback(req, pending.value);
    }

    /** `callback_google` from the taken entry on. */
    method FinishCallback(req: nat, right: Right) returns (r: Response)
      requires Logged() && forall n, e :: e in oracle.deeds(n) ==> Foreign(e, req)
      requires req !in server.grants && req in server.callbacks && server.callbacks[req] == Callback(right, None)
      modifies this
      ensures Logged() && old(run) <= run && Alone(req)
      ensures r.Redirect? <==>
                !oracle.fails(old(awaits)) && !oracle.fails(old(awaits) + 1) && !oracle.fails(old(awaits) + 2)
      ensures r.Redirect? ==>
                && r.code in server.codes && server.codes[r.code].expiresAt == server.now + 60_000
                && server.codes[r.code].value == AuthCode(right, oracle.text(old(awaits) + 2))
                && r.to == right.redirectUri
      ensures r.Redirect? ==>
                exists before, victim ::
                  && own == old(own) + [FindUser(req, oracle.text(old(awaits) + 2))] + [StoreCode(req, r.code, victim)]
                  && run == before + [StoreCode(req, r.code, victim)] && r.code in server.codes
                  && Allowed(After(before).codes, Op.Put(r.code, server.codes[r.code], server.now, victim))
      ensures !r.Redirect? ==> r == GoogleError(old(awaits)) && own == old(own) + [GiveUp(req)]
    {
      var user := IdentifyUser(req);
      if user.Err? {
        Abandon(req);
        return user.response;
      }
      NameUser(req, user.value);
      Await(req);
      var code := oracle.text(awaits);
      PutCode(req, code);
      return Redirect(right.redirectUri, code);
    }

    /** `client_grant_types` */
    method ClientGrantTypes(req: nat) returns (r: Option<Option<seq<string>>>)
      requires Logged() && forall n, e :: e in oracle.deeds(n) ==> Foreign(e, req)
      modifies this`server, this`run, this`awaits
      ensures Logged() && old(run) <= run && awaits == old(awaits) + 1
      ensures req in server.callbacks <==> req in old(server).callbacks
      ensures req in server.grants <==> req in old(server).grants
      ensures req in server.grants ==> server.grants[req] == old(server).grants[req]
      ensures r == match oracle.lookup(old(awaits))
                   case StorageFails => None
                   case Unknown => Some(None)
                   case Found(c) => if c.grantTypes == None then None else Some(c.grantTypes)
    {
      var answer := oracle.lookup(awaits);
      Await(req);
      match answer
      case StorageFails => return None;
      case Unknown => return Some(None);
      case Found(c) => return if c.grantTypes == None then None else Some(c.grantTypes);
    }

    /** The access token is signed and, if one is asked for, the refresh token is stored: its hash was
        new when the last event of this request happened. */
    ghost predicate Issues(at: nat, includeRefresh: bool)
      reads this
    {
      && !oracle.fails(at)
      && (includeRefresh ==>
            && !oracle.fails(at + 1) && run != []
            && oracle.sha256(oracle.text(at)) !in After(run[..|run| - 1]).tokens)
    }

    /** `grant_auth_code`: tokens exactly for a code presented with its verifier, client and address. */
    method GrantAuthCode(req: nat, body: TokenForm) returns (r: Response)
      requires Logged() && Alone(req)
      modifies this
      ensures Logged() && old(run) <= run && Alone(req)
      ensures r.Tokens? ==> body.code.Some? && body.codeVerifier.Some? && body.code.value in old(server).codes
      ensures r.Tokens? ==> Answered(req, r)
      ensures r.Tokens? ==>
                own == old(own) + [RedeemEvent(body, req)] + [run[|run| - 1]]
      ensures r.Tokens? ==> body.clientId == Some(r.clientId)
      ensures r.Tokens? ==> r.userId == old(server).codes[body.code.value].value.userId
      ensures r.Tokens? ==> (r.refreshToken.Some? <==> Registered(oracle.lookup(old(awaits)), "refresh_token"))
      ensures r.Tokens? <==>
                && body.code.Some? && body.codeVerifier.Some? && CodeFits(old(server), body)
                && var l := oracle.lookup(old(awaits));
                && l.Found? && l.client.grantTypes.Some?
                && Issues(old(awaits) + 1, "refresh_token" in l.client.grantTypes.value)
      ensures !r.Tokens? && own != old(own) ==> body.code.Some? && body.codeVerifier.Some?
      ensures !r.Tokens? && own != old(own) ==>
                own == old(own) + [RedeemEvent(body, req)] || own == old(own) + [RedeemEvent(body, req)] + [GiveUp(req)]
    {
      if body.code == None { return BadRequest("invalid_request"); }
      if body.codeVerifier == None { return BadRequest("invalid_request"); }
      var taken := TakeCode(req, body);
      if taken.Err? { return taken.response; }
      var grants := ClientGrantTypes(req);
      if grants == None {
        Abandon(req);
        return ServerError;
      }
      if grants.value == None {
        Abandon(req);
        return BadRequest("invalid_client");
      }
      r := IssueTokens(req, taken.value.userId, taken.value.right.clientId, "refresh_token" in grants.value.value);
    }

    /** The row stands under the hash, unrevoked, and its expiry is still to come. */
    predicate TokenFits(s: Server, hash: string, asOf: int)
    {
      hash in s.tokens && s.tokens[hash].revokedAt == None && asOf < s.tokens[hash].expiresAt
    }

    /** `TokenFits` for the presented token, where the run stood at `before`. */
    predicate Fits(before: seq<Event>, body: TokenForm, asOf: int)
      requires body.refreshToken.Some?
    {
      TokenFits(After(before), oracle.sha256(body.refreshToken.value), asOf)
    }

    /** In the run, this request uses the refresh token right after `before`. */
    ghost predicate UsesAfter(before: seq<Event>, body: TokenForm, req: nat, asOf: int)
      reads this
      requires body.refreshToken.Some?
    {
      before + [UseEvent(body, req, asOf)] <= run
    }

    /** The clock is read, then the table is asked. */
    method ConsumeToken(req: nat, body: TokenForm) returns (row: Option<TokenRow>, ghost before: seq<Event>)
      requires Logged() && Alone(req) && body.refreshToken.Some?
      modifies this`server, this`run, this`own, this`awaits
      ensures Logged() && old(run) <= run && req !in server.callbacks && awaits == old(awaits) + 1
      ensures own == old(own) + [UseEvent(body, req, old(server).now)]
      ensures UsesAfter(before, body, req, old(server).now)
      ensures row.Some? <==> Fits(before, body, old(server).now)
      ensures row.Some? ==> row.value == After(before).tokens[oracle.sha256(body.refreshToken.value)]
      ensures row == None ==> req !in server.grants
      ensures row.Some? ==> req in server.grants && server.grants[req].userId == row.value.userId
      ensures row.Some? ==> server.grants[req].clientId == row.value.clientId
    {
      var asOf := server.now;
      Await(req);
      before := run;
      row := ValidateAndRevoke(req, oracle.sha256(body.refreshToken.value), asOf);
    }

    /** `grant_refresh`: the old token is gone whatever the answer is. */
    method GrantRefresh(req: nat, body: TokenForm) returns (r: Response, ghost before: seq<Event>)
      requires Logged() && Alone(req)
      modifies this
      ensures Logged() && old(run) <= run && Alone(req)
      ensures r.Tokens? ==> body.refreshToken.Some? && r.refreshToken.Some? && Answered(req, r)
      ensures r.Tokens? ==> own == old(own) + [UseEvent(body, req, old(server).now)] + [run[|run| - 1]]
      ensures r.Tokens? ==> Registered(oracle.lookup(old(awaits) + 1), "refresh_token")
      ensures body.refreshToken.Some? ==> UsesAfter(before, body, req, old(server).now)
      ensures body.refreshToken.Some? ==>
                (r == BadRequest("invalid_grant") <==> !Fits(before, body, old(server).now))
      ensures body.refreshToken.Some? ==>
                (r.Tokens? <==>
                   && Fits(before, body, old(server).now)
                   && Registered(oracle.lookup(old(awaits) + 1), "refresh_token") && Issues(old(awaits) + 2, true))
      ensures r.Tokens? ==>
                var row := After(before).tokens[oracle.sha256(body.refreshToken.value)];
                r.userId == row.userId && r.clientId == row.clientId
      ensures !r.Tokens? && own != old(own) ==> body.refreshToken.Some?
      ensures !r.Tokens? && own != old(own) ==>
                || own == old(own) + [UseEvent(body, req, old(server).now)]
                || own == old(own) + [UseEvent(body, req, old(server).now)] + [GiveUp(req)]
    {
      before := [];
      if body.refreshToken == None { return BadRequest("invalid_request"), before; }
      var row;
      row, before := ConsumeToken(req, body);
      if row == None { return BadRequest("invalid_grant"), before; }
      r := RenewTokens(req, row.value);
    }

    /** `grant_refresh` from the consumed row on. */
    method RenewTokens(req: nat, row: TokenRow) returns (r: Response)
      requires Logged() && req !in server.callbacks && forall n, e :: e in oracle.deeds(n) ==> Foreign(e, req)
      requires req in server.grants
      requires server.grants[req].userId == row.userId && server.grants[req].clientId == row.clientId
      modifies this
      ensures Logged() && old(run) <= run && Alone(req)
      ensures r.Tokens? ==> r.refreshToken.Some? && Answered(req, r) && own == old(own) + [run[|run| - 1]]
      ensures r.Tokens? ==> r.userId == row.userId && r.clientId == row.clientId
      ensures r.Tokens? <==> Registered(oracle.lookup(old(awaits)), "refresh_token") && Issues(old(awaits) + 1, true)
      ensures !r.Tokens? ==> own == old(own) + [GiveUp(req)] && r != BadRequest("invalid_grant")
    {
      var grants := ClientGrantTypes(req);
      if grants == None {
        Abandon(req);
        return ServerError;
      }
      if grants.value == None {
        Abandon(req);
        return BadRequest("invalid_client");
      }
      if "refresh_token" !in grants.value.value {
        Abandon(req);
        return BadRequest("unauthorized_client");
      }
      r := IssueTokens(req, row.userId, row.clientId, true);
    }

    /** `issue_tokens` */
    method IssueTokens(req: nat, userId: string, clientId: string, includeRefresh: bool) returns (r: Response)
      requires Logged() && req !in server.callbacks && forall n, e :: e in oracle.deeds(n) ==> Foreign(e, req)
      requires req in server.grants && server.grants[req].userId == userId && server.grants[req].clientId == clientId
      modifies this
      ensures Logged() && old(run) <= run && Alone(req)
      ensures r.Tokens? ==> Answered(req, r) && own == old(own) + [run[|run| - 1]]
      ensures r.Tokens? ==> r.userId == userId && r.clientId == clientId
      ensures r.Tokens? ==> (r.refreshToken.Some? <==> includeRefresh)
      ensures r.Tokens? && includeRefresh ==> run[|run| - 1].expiresAt == old(server.now) + 2_592_000_000
      ensures r.Tokens? <==> Issues(old(awaits), includeRefresh)
      ensures !r.Tokens? ==> own == old(own) + [GiveUp(req)] && r == ServerError
    {
      if oracle.fails(awaits) {
        Abandon(req);
        return ServerError;
      }
      if !includeRefresh {
        Do(IssueAccessOnly(req));
        return Tokens(userId, clientId, None);
      }
      var token := oracle.text(awaits);
      var expiresAt := server.now + REFRESH_TOKEN_TTL_MS;
      var failed := oracle.fails(awaits + 1);
      Await(req);
      var hash := oracle.sha256(token);
      if failed || hash in server.tokens {
        Abandon(req);
        return ServerError;
      }
      Do(StoreRefresh(req, hash, expiresAt));
      return Tokens(userId, clientId, Some(token));
    }

    /** `token` */
    method Token(req: nat, body: TokenForm) returns (r: Response)
      requires Logged() && Alone(req)
      modifies this
      ensures Logged() && old(run) <= run && Alone(req)
      ensures r.Tokens? ==> Answered(req, r)
      ensures !r.Tokens? ==> NoAnswer(old(own))
      ensures body.grantType !in {"authorization_code", "refresh_token"} ==> r.BadRequest? && own == old(own)
    {
      if body.grantType == "authorization_code" {
        r := GrantAuthCode(req, body);
      } else if body.grantType == "refresh_token" {
        ghost var before;
        r, before := GrantRefresh(req, body);
      } else {
        r := BadRequest("unsupported_grant_type");
      }
    }

    /** `revoke`: whatever the token was, it can not be used again. */
    method RevokeToken(token: string)
      requires Logged()
      modifies this
      ensures Logged() && run == old(run) + [Revoke(oracle.sha256(token))]
      ensures own == old(own) + [Revoke(oracle.sha256(token))]
      ensures HolderAt(server, InToken(oracle.sha256(token))) == None && awaits == old(awaits)
    {
      Do(Revoke(oracle.sha256(token)));
    }

    /** No event since `before` answers a token request. */
    ghost predicate NoAnswer(before: seq<Event>)
      reads this
    {
      before <= own && forall i :: |before| <= i < |own| ==> !own[i].StoreRefresh? && !own[i].IssueAccessOnly?
    }
  }

  predicate Registered(l: Lookup, grant: string)
  {
    l.Found? && l.client.grantTypes.Some? && grant in l.client.grantTypes.value
  }
}
