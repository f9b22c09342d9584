/** The authorization server as a transition system: every piece of a handler that runs without an
    await is one event, so any interleaving of any number of requests is a sequence of events. */
module AuthProtocol {
  import opened Wrappers
  import opened AuthSessions

  const PENDING_TTL_MS := 10 * 60 * 1000
  const AUTH_CODE_TTL_MS := 60 * 1000
  const REFRESH_TOKEN_TTL_MS := 30 * 24 * 3600 * 1000

  /** What one `/authorize` grants. The tag numbers the authorizations; the program has no such field
      and nothing below decides by it. */
  datatype Right = Right(tag: nat, clientId: string, redirectUri: string, codeChallenge: string)

  /** A callback that has taken its pending entry; the user is known once Google and the user table answered. */
  datatype Callback = Callback(right: Right, userId: Option<string>)

  datatype AuthCode = AuthCode(right: Right, userId: string)

  /** A token request that has consumed its code or its refresh token. */
  datatype Grant = Grant(tag: nat, userId: string, clientId: string)

  datatype TokenRow = TokenRow(tag: nat, userId: string, clientId: string, expiresAt: int, revokedAt: Option<int>)

  type Tokens = map<string, TokenRow>

  datatype Server = Server(
    now: int,
    next: nat,
    pending: Sessions<Right>,
    callbacks: map<nat, Callback>,
    codes: Sessions<AuthCode>,
    grants: map<nat, Grant>,
    tokens: Tokens)

  datatype Event =
    | ClockReads(now: int)
    | Authorize(key: string, clientId: string, redirectUri: string, codeChallenge: string, evicted: Option<string>)
    | TakePending(key: string, req: nat)
    | FindUser(req: nat, userId: string)
    | StoreCode(req: nat, code: string, evicted: Option<string>)
    | Redeem(code: string, challenge: string, client: Option<string>, redirect: Option<string>, req: nat)
    | UseRefresh(hash: string, req: nat, asOf: int)
    | IssueAccessOnly(req: nat)
    | StoreRefresh(req: nat, hash: string, expiresAt: int)
    | Revoke(hash: string)
    | GiveUp(req: nat)
    | Restart

  // ----- the refresh-token table -----

  function Usable(tokens: Tokens, hash: string, now: int): bool
  {
    hash in tokens && tokens[hash].revokedAt == None && tokens[hash].expiresAt > now
  }

  function Revoked(tokens: Tokens, hash: string, now: int): Tokens
  {
    if hash in tokens then tokens[hash := tokens[hash].(revokedAt := Some(now))] else tokens
  }

  // ----- steps -----

  /** The checks between `take_code` and the first await. */
  predicate Presents(entry: AuthCode, challenge: string, client: Option<string>, redirect: Option<string>)
  {
    && challenge == entry.right.codeChallenge
    && client == Some(entry.right.clientId) && redirect == Some(entry.right.redirectUri)
  }

  function Redeemed(s: Server, e: Event): Option<AuthCode>
    requires e.Redeem?
  {
    var got := Taken(s.codes, s.now, e.code);
    if got.Some? && Presents(got.value.value, e.challenge, e.client, e.redirect) then Some(got.value.value) else None
  }

  function ApplyAuthorize(s: Server, e: Event): Server
    requires e.Authorize?
  {
    var right := Right(s.next, e.clientId, e.redirectUri, e.codeChallenge);
    s.(next := s.next + 1, pending := PutIn(s.pending, s.now, e.key, Entry(right, s.now + PENDING_TTL_MS), e.evicted))
  }

  function ApplyTakePending(s: Server, e: Event): Server
    requires e.TakePending?
  {
    var got := Taken(s.pending, s.now, e.key);
    s.(pending := TakeOut(s.pending, s.now, e.key),
       callbacks := if got.Some? then s.callbacks[e.req := Callback(got.value.value, None)] else s.callbacks)
  }

  function ApplyFindUser(s: Server, e: Event): Server
    requires e.FindUser?
  {
    if e.req in s.callbacks && s.callbacks[e.req].userId == None
    then s.(callbacks := s.callbacks[e.req := s.callbacks[e.req].(userId := Some(e.userId))])
    else s
  }

  function ApplyStoreCode(s: Server, e: Event): Server
    requires e.StoreCode?
  {
    if e.req in s.callbacks && s.callbacks[e.req].userId.Some? then
      var c := s.callbacks[e.req];
      var entry := Entry(AuthCode(c.right, c.userId.value), s.now + AUTH_CODE_TTL_MS);
      s.(callbacks := s.callbacks - {e.req}, codes := PutIn(s.codes, s.now, e.code, entry, e.evicted))
    else s
  }

  function GrantOf(entry: AuthCode): Grant
  {
    Grant(entry.right.tag, entry.userId, entry.right.clientId)
  }

  function ApplyRedeem(s: Server, e: Event): Server
    requires e.Redeem?
  {
    var entry := Redeemed(s, e);
    s.(codes := TakeOut(s.codes, s.now, e.code),
       grants := if entry.Some? then s.grants[e.req := GrantOf(entry.value)] else s.grants)
  }

  /** The single UPDATE ... RETURNING of `validate_and_revoke`, with the time the handler read before. */
  function ApplyUseRefresh(s: Server, e: Event): Server
    requires e.UseRefresh?
  {
    if Usable(s.tokens, e.hash, e.asOf) then
      var row := s.tokens[e.hash];
      s.(tokens := Revoked(s.tokens, e.hash, e.asOf),
         grants := s.grants[e.req := Grant(row.tag, row.userId, row.clientId)])
    else s
  }

  /** `create_refresh`; the primary key refuses a hash that is already there. */
  function ApplyStoreRefresh(s: Server, e: Event): Server
    requires e.StoreRefresh?
  {
    if e.req in s.grants && e.hash !in s.tokens then
      var g := s.grants[e.req];
      s.(grants := s.grants - {e.req},
         tokens := s.tokens[e.hash := TokenRow(g.tag, g.userId, g.clientId, e.expiresAt, None)])
    else s
  }

  function Apply(s: Server, e: Event): Server
  {
    match e
    case ClockReads(now) => s.(now := now)
    case Authorize(_, _, _, _, _) => ApplyAuthorize(s, e)
    case TakePending(_, _) => ApplyTakePending(s, e)
    case FindUser(_, _) => ApplyFindUser(s, e)
    case StoreCode(_, _, _) => ApplyStoreCode(s, e)
    case Redeem(_, _, _, _, _) => ApplyRedeem(s, e)
    case UseRefresh(_, _, _) => ApplyUseRefresh(s, e)
    case IssueAccessOnly(req) => s.(grants := s.grants - {req})
    case StoreRefresh(_, _, _) => ApplyStoreRefresh(s, e)
    case Revoke(hash) => s.(tokens := Revoked(s.tokens, hash, s.now))
    case GiveUp(req) => s.(callbacks := s.callbacks - {req}, grants := s.grants - {req})
    case Restart => s.(pending := map[], callbacks := map[], codes := map[], grants := map[])
  }

  const FRESH := Server(0, 0, map[], map[], map[], map[], map[])

  function After(run: seq<Event>): Server
  {
    if run == [] then FRESH else Apply(After(run[..|run| - 1]), run[|run| - 1])
  }

  // ----- where a right can be -----

  datatype Place =
    | InPending(key: string)
    | InCallback(cb: nat)
    | InCode(code: string)
    | InGrant(req: nat)
    | InToken(hash: string)

  datatype Claim = Claim(tag: nat, clientId: string, userId: Option<string>)

  function HolderAt(s: Server, p: Place): Option<Claim>
  {
    match p
    case InPending(k) =>
      if k in s.pending then Some(Claim(s.pending[k].value.tag, s.pending[k].value.clientId, None)) else None
    case InCallback(q) =>
      if q !in s.callbacks then None
      else Some(Claim(s.callbacks[q].right.tag, s.callbacks[q].right.clientId, s.callbacks[q].userId))
    case InCode(k) =>
      if k !in s.codes then None
      else var c := s.codes[k].value; Some(Claim(c.right.tag, c.right.clientId, Some(c.userId)))
    case InGrant(q) =>
      if q in s.grants then Some(Claim(s.grants[q].tag, s.grants[q].clientId, Some(s.grants[q].userId))) else None
    case InToken(h) =>
      if h in s.tokens && s.tokens[h].revokedAt == None
      then Some(Claim(s.tokens[h].tag, s.tokens[h].clientId, Some(s.tokens[h].userId))) else None
  }

  function Stage(p: Place): nat
  {
    match p
    case InPending(_) => 0
    case InCallback(_) => 1
    case InCode(_) => 2
    case _ => 3
  }

  /** `d` at `q` is `c` at `p`, carried on: same authorization, same client, same user once there is
      one, and never an earlier stage. */
  predicate Continues(c: Claim, p: Place, d: Claim, q: Place)
  {
    c.tag == d.tag && c.clientId == d.clientId && (c.userId.Some? ==> d.userId == c.userId) && Stage(p) <= Stage(q)
  }

  ghost predicate Unique(s: Server)
  {
    forall p, q ::
      HolderAt(s, p).Some? && HolderAt(s, q).Some? && HolderAt(s, p).value.tag == HolderAt(s, q).value.tag ==> p == q
  }

  ghost predicate Numbered(s: Server)
  {
    forall p :: HolderAt(s, p).Some? ==> HolderAt(s, p).value.tag < s.next
  }

  // ----- what one event can do to the holders -----

  ghost predicate Keeps(s: Server, t: Server)
  {
    forall q :: HolderAt(t, q).Some? ==> HolderAt(t, q) == HolderAt(s, q)
  }

  ghost predicate Carries(s: Server, t: Server, from: Place, to: Place)
  {
    && HolderAt(s, from).Some? && HolderAt(t, to).Some?
    && Continues(HolderAt(s, from).value, from, HolderAt(t, to).value, to)
    && (forall q :: q != to && HolderAt(t, q).Some? ==> q != from && HolderAt(t, q) == HolderAt(s, q))
  }

  ghost predicate Creates(s: Server, t: Server, to: Place)
  {
    && HolderAt(t, to).Some? && HolderAt(t, to).value.tag == s.next && to.InPending?
    && (forall q :: q != to && HolderAt(t, q).Some? ==> HolderAt(t, q) == HolderAt(s, q))
  }

  /** The place an event takes a right from and the place it puts it. */
  function Route(s: Server, e: Event): Option<(Place, Place)>
  {
    match e
    case TakePending(key, req) =>
      if Taken(s.pending, s.now, key).Some? then Some((InPending(key), InCallback(req))) else None
    case FindUser(req, _) => if req in s.callbacks then Some((InCallback(req), InCallback(req))) else None
    case StoreCode(req, code, _) =>
      if req in s.callbacks && s.callbacks[req].userId.Some? then Some((InCallback(req), InCode(code))) else None
    case Redeem(code, _, _, _, req) => if Redeemed(s, e).Some? then Some((InCode(code), InGrant(req))) else None
    case UseRefresh(hash, req, asOf) =>
      if Usable(s.tokens, hash, asOf) then Some((InToken(hash), InGrant(req))) else None
    case StoreRefresh(req, hash, _) =>
      if req in s.grants && hash !in s.tokens then Some((InGrant(req), InToken(hash))) else None
    case _ => None
  }

  lemma CallbackCarries(s: Server, e: Event)
    requires e.TakePending? || e.FindUser? || e.StoreCode?
    requires Route(s, e).Some?
    ensures Carries(s, Apply(s, e), Route(s, e).value.0, Route(s, e).value.1) && Apply(s, e).next == s.next
  {
  }

  lemma GrantCarries(s: Server, e: Event)
    requires e.Redeem? || e.UseRefresh? || e.StoreRefresh?
    requires Route(s, e).Some?
    ensures Carries(s, Apply(s, e), Route(s, e).value.0, Route(s, e).value.1) && Apply(s, e).next == s.next
  {
  }

  lemma EventCarries(s: Server, e: Event)
    requires Route(s, e).Some?
    ensures Carries(s, Apply(s, e), Route(s, e).value.0, Route(s, e).value.1) && Apply(s, e).next == s.next
  {
    if e.TakePending? || e.FindUser? || e.StoreCode? { CallbackCarries(s, e); } else { GrantCarries(s, e); }
  }

  lemma EventKeeps(s: Server, e: Event)
    requires Route(s, e) == None && !e.Authorize?
    ensures Keeps(s, Apply(s, e)) && Apply(s, e).next == s.next
  {
  }

  lemma EventCreates(s: Server, e: Event)
    requires e.Authorize?
    ensures Creates(s, Apply(s, e), InPending(e.key)) && Apply(s, e).next == s.next + 1
  {
  }

  /** Every claim of a known authorization in `t` carries on one in `s`. */
  ghost predicate Descends(s: Server, t: Server)
  {
    && s.next <= t.next
    && forall q :: HolderAt(t, q).Some? && HolderAt(t, q).value.tag < s.next ==>
         exists p :: HolderAt(s, p).Some? && Continues(HolderAt(s, p).value, p, HolderAt(t, q).value, q)
  }

  lemma EventIsSafe(s: Server, e: Event)
    requires Unique(s) && Numbered(s)
    ensures Unique(Apply(s, e)) && Numbered(Apply(s, e)) && Descends(s, Apply(s, e))
  {
    if e.Authorize? {
      EventCreates(s, e);
      CreatingIsSafe(s, Apply(s, e), InPending(e.key));
    } else if Route(s, e).Some? {
      EventCarries(s, e);
      CarryingIsSafe(s, Apply(s, e), Route(s, e).value.0, Route(s, e).value.1);
    } else {
      EventKeeps(s, e);
      KeepingIsSafe(s, Apply(s, e));
    }
  }

  lemma KeepingIsSafe(s: Server, t: Server)
    requires Unique(s) && Numbered(s) && Keeps(s, t) && t.next == s.next
    ensures Unique(t) && Numbered(t) && Descends(s, t)
  {
  }

  lemma CarryingIsSafe(s: Server, t: Server, from: Place, to: Place)
    requires Unique(s) && Numbered(s) && Carries(s, t, from, to) && t.next == s.next
    ensures Unique(t) && Numbered(t) && Descends(s, t)
  {
  }

  lemma CreatingIsSafe(s: Server, t: Server, to: Place)
    requires Unique(s) && Numbered(s) && Creates(s, t, to) && t.next == s.next + 1
    ensures Unique(t) && Numbered(t) && Descends(s, t)
  {
  }
}
