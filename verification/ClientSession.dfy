/**
 * What the client makes of a token endpoint reply, as functions on the session: the token cache and
 * the in-memory copy of the id token. Replies are arbitrary inputs. `Auth0Clients` proves the class
 * against these functions.
 */
module ClientSession {
  import opened Prelude
  import opened CacheKeys
  import opened TokenStore
  import opened Scopes
  import Revocation

  const SESSION_EXPIRY_LEEWAY_SECONDS := 30
  const MILLISECOND_MAGNITUDE := 10_000_000_000

  datatype Config = Config(
    clientId: string,
    audience: Option<string>,
    scopes: map<string, string>,
    useRefreshTokens: bool,
    useMrrt: bool,
    useRefreshTokensFallback: bool,
    onlineAccess: bool,
    hasWorker: bool)

  /** `user` is the in-memory copy of the id token entry (`userCache`). */
  datatype Session = Session(store: Store, user: Option<IdTokenEntry>)

  datatype Refusal = UserBlocked | InvalidRefreshToken | MissingRefreshToken | OtherRefusal

  /** A reply after transport: refused, not verifiable, or a verified token response. */
  datatype Reply =
    | Refused(why: Refusal)
    | Unverified
    | Granted(accessToken: string, refreshToken: Option<string>, scope: Option<string>, tokenType: Option<string>,
              expiresIn: int, idToken: string, claims: Claims)

  datatype TokenRequest = TokenRequest(
    isCode: bool,
    audience: Option<string>,
    scope: string,
    scopesToRequest: Option<string>,
    refreshToken: Option<string>)

  datatype TokenResult =
    | Issued(accessToken: string, refreshToken: Option<string>, scope: Option<string>, claims: Claims)
    | Rejected(why: Refusal)
    | VerificationFailed
    | InvalidCeiling

  datatype RefreshResult =
    | Refreshed(accessToken: string)
    | NoRefreshToken
    | MissingScopes(missing: string)
    | UseIframe
    | RefreshFailed

  // ------------------------------------------------------------ id token access

  function IdTokenLookup(cfg: Config): CacheKey {
    var audience := OrElse(cfg.audience, DEFAULT_AUDIENCE);
    CacheKey(CACHE_KEY_PREFIX, Some(cfg.clientId), Some(audience), Scopes.At(cfg.scopes, audience), None)
  }

  /** Reads the id token from the cache and brings the in-memory copy in line with it. */
  function SyncUser(cfg: Config, ix: Index, s: Session, now: int): (Option<IdTokenEntry>, Session) {
    var (cached, st') := GetIdToken(ix, s.store, IdTokenLookup(cfg), now);
    if cached.Some? && s.user.Some? && cached.value.idToken == s.user.value.idToken then (s.user, Session(st', s.user))
    else (cached, Session(st', cached))
  }

  function ClearLocalSession(ix: Index, s: Session, clientId: Option<string>): Session {
    Session(Clear(ix, s.store, clientId), None)
  }

  /** The id token that carries the ceiling: the in-memory one if there is one. */
  function CeilingHolder(cfg: Config, s: Session): Option<IdTokenEntry> {
    if s.user.Some? then s.user
    else
      var key := IdTokenKey(cfg.clientId);
      if key in s.store.entries && s.store.entries[key].IdToken? then Some(s.store.entries[key].entry) else None
  }

  predicate PastCeiling(ceiling: Ceiling, now: int) {
    ceiling.Seconds? && FloorSeconds(now) >= ceiling.at - SESSION_EXPIRY_LEEWAY_SECONDS
  }

  /** Checks the ceiling; a session past it is cleared. */
  function CheckCeiling(cfg: Config, ix: Index, s: Session, now: int): (bool, Session) {
    var holder := CeilingHolder(cfg, s);
    if holder.Some? && PastCeiling(holder.value.claims.sessionExpiry, now)
    then (true, ClearLocalSession(ix, s, Some(cfg.clientId))) else (false, s)
  }

  function GetUser(cfg: Config, ix: Index, s: Session, now: int): (Option<IdTokenEntry>, Session) {
    var (reached, s1) := CheckCeiling(cfg, ix, s, now);
    if reached then (None, s1) else SyncUser(cfg, ix, s1, now)
  }

  /** A token is refreshed when it has less than this many seconds left. */
  const TOKEN_EXPIRY_LEEWAY_SECONDS := 60

  /** An unexpired access token is handed out only together with an id token. */
  function GetEntryFromCache(
      cfg: Config, ix: Index, s: Session, k: CacheKey, cacheOnly: bool, now: int): (Option<string>, Session) {
    var (body, st') := Get(ix, s.store, k, TOKEN_EXPIRY_LEEWAY_SECONDS, cfg.useMrrt, cacheOnly, now);
    var s1 := s.(store := st');
    if body.Some? && Truthy(body.value.accessToken) then
      var (id, s2) := SyncUser(cfg, ix, s1, now);
      (if id.Some? then body.value.accessToken else None, s2)
    else (None, s1)
  }

  /** How the part of a token request before the lock ends; only `GoOn` goes on to the lock. */
  datatype BeforeLock = Ended | Hit(token: string) | Missed | GoOn

  /** The part of `getTokenSilently` before the lock: ceiling check, then the cache unless it is off. */
  function GetTokenBeforeLock(cfg: Config, ix: Index, s: Session, k: CacheKey, mode: CacheMode, now: int)
    : (BeforeLock, Session)
  {
    var (reached, s1) := CheckCeiling(cfg, ix, s, now);
    if reached then (Ended, s1)
    else if mode.Off? then (GoOn, s1)
    else
      var (token, s2) := GetEntryFromCache(cfg, ix, s1, k, mode.CacheOnly?, now);
      (if token.Some? then Hit(token.value) else if mode.CacheOnly? then Missed else GoOn, s2)
  }

  // --------------------------------------------------------------- token requests

  predicate CeilingAccepted(claims: Claims) {
    match claims.sessionExpiry
    case NoCeiling => true
    case NotANumber => false
    case Seconds(at) => at < MILLISECOND_MAGNITUDE && claims.iat.Some? && claims.iat.value < at
  }

  /** A ceiling already stored outlives whatever the server sends with a refresh. */
  function Pinned(claims: Claims, existing: Option<IdTokenEntry>): Claims {
    if existing.Some? && !existing.value.claims.sessionExpiry.NoCeiling?
    then claims.(sessionExpiry := existing.value.claims.sessionExpiry) else claims
  }

  /** Another user's login empties the client's cache first. */
  function DropOtherUser(cfg: Config, ix: Index, s: Session, existing: Option<IdTokenEntry>, sub: string): Session {
    if existing.Some? && existing.value.claims.sub != "" && existing.value.claims.sub != sub
    then ClearLocalSession(ix, s, Some(cfg.clientId)) else s
  }

  /** In online mode a reply without refresh token keeps the one that was used, or the one in the cache. */
  function CarryToken(cfg: Config, ix: Index, s: Session, req: TokenRequest, replied: Option<string>, now: int)
    : (Option<string>, Session)
  {
    if Truthy(replied) || !cfg.onlineAccess then (replied, s)
    else if req.refreshToken.Some? then (req.refreshToken, s)
    else
      var k := TokenKey(cfg.clientId, OrElse(req.audience, DEFAULT_AUDIENCE), OrElse(req.scopesToRequest, req.scope));
      var (body, st') := Get(ix, s.store, k, 0, cfg.useMrrt, false, now);
      ((if body.Some? then body.value.refreshToken else None), s.(store := st'))
  }

  function EntryFor(cfg: Config, req: TokenRequest, reply: Reply, refreshToken: Option<string>): CacheEntry
    requires reply.Granted?
  {
    CacheEntry(cfg.clientId, OrElse(req.audience, DEFAULT_AUDIENCE), req.scope, reply.accessToken, refreshToken,
               reply.tokenType, reply.expiresIn, if Truthy(reply.scope) then reply.scope else None, None)
  }

  /** Writes the id token, in memory and in the cache, and then the token entry without it. */
  function SaveEntry(cfg: Config, ix: Index, s: Session, idToken: IdTokenEntry, e: CacheEntry, now: int): Session {
    Session(PutNoted(ix, SetIdToken(ix, s.store, cfg.clientId, idToken), EntryKey(e), Stamped(e, now)), Some(idToken))
  }

  /** The session as it stands before the save, and the claims that will be saved. */
  function BeforeSave(cfg: Config, ix: Index, s: Session, req: TokenRequest, reply: Reply, now: int): (Claims, Session)
    requires reply.Granted?
  {
    var (existing, s1) := SyncUser(cfg, ix, s, now);
    if req.isCode then (reply.claims, DropOtherUser(cfg, ix, s1, existing, reply.claims.sub))
    else (Pinned(reply.claims, existing), s1)
  }

  /** Carries a refresh token forward if need be, checks the ceiling and saves. */
  function FinishRequest(
      cfg: Config, ix: Index, s: Session, req: TokenRequest, reply: Reply, claims: Claims, now: int)
    : (TokenResult, Session)
    requires reply.Granted?
  {
    var (refreshToken, s1) := CarryToken(cfg, ix, s, req, reply.refreshToken, now);
    if !CeilingAccepted(claims) then (InvalidCeiling, s1)
    else (Issued(reply.accessToken, refreshToken, reply.scope, claims),
          SaveEntry(cfg, ix, s1, IdTokenEntry(reply.idToken, claims), EntryFor(cfg, req, reply, refreshToken), now))
  }

  function RequestToken(
      cfg: Config, ix: Index, s: Session, req: TokenRequest, reply: Reply, now: int): (TokenResult, Session) {
    match reply
    case Refused(why) => (Rejected(why), s)
    case Unverified => (VerificationFailed, s)
    case Granted(_, _, _, _, _, _, _) =>
      var (claims, s1) := BeforeSave(cfg, ix, s, req, reply, now);
      FinishRequest(cfg, ix, s1, req, reply, claims, now)
  }

  // -------------------------------------------------------------------- refresh

  function Propagate(cfg: Config, ix: Index, s: Session, previous: Option<string>, next: Option<string>): Session {
    if cfg.onlineAccess || !Truthy(next) || !Truthy(previous) then s
    else s.(store := UpdateEntry(ix, s.store, previous.value, next.value, cfg.clientId, cfg.useMrrt))
  }

  function CachedAudience(cached: Option<Body>): Option<string> {
    if cached.Some? then cached.value.audience else None
  }

  function CachedScope(cached: Option<Body>): Option<string> {
    if cached.Some? then cached.value.scope else None
  }

  function CachedToken(cached: Option<Body>): Option<string> {
    if cached.Some? then cached.value.refreshToken else None
  }

  /** The scopes that a refresh for another audience, or for more scopes, did not get. */
  function Shortfall(
      cfg: Config, cached: Option<Body>, audience: Option<string>, scope: string, sent: string,
      responded: Option<string>): string {
    if cfg.useMrrt && IsRefreshWithMrrt(CachedAudience(cached), CachedScope(cached), audience, scope)
    then GetMissingScopes(Some(sent), responded, cfg.onlineAccess) else ""
  }

  function RefreshRequest(cfg: Config, cached: Option<Body>, audience: Option<string>, scope: string): TokenRequest {
    var sent := GetScopeToRequest(cfg.useMrrt, audience, scope, CachedAudience(cached), CachedScope(cached));
    TokenRequest(false, audience, scope, Some(sent), CachedToken(cached))
  }

  /** What follows a successful reply: propagation, then the check that all scopes came back. */
  function Settle(
      cfg: Config, ix: Index, s: Session, cached: Option<Body>, audience: Option<string>, scope: string,
      result: TokenResult)
    : (RefreshResult, Session)
    requires result.Issued?
  {
    var s1 := Propagate(cfg, ix, s, CachedToken(cached), result.refreshToken);
    var sent := GetScopeToRequest(cfg.useMrrt, audience, scope, CachedAudience(cached), CachedScope(cached));
    var missing := Shortfall(cfg, cached, audience, scope, sent, result.scope);
    if missing == "" then (Refreshed(result.accessToken), s1)
    else if cfg.useRefreshTokensFallback then (UseIframe, s1)
    else
      (MissingScopes(missing),
       s1.(store := Remove(s1.store, cfg.clientId, Some(OrElse(audience, DEFAULT_AUDIENCE)), Some(scope))))
  }

  function RefreshFailure(cfg: Config, ix: Index, s: Session, result: TokenResult): (RefreshResult, Session) {
    if result == Rejected(UserBlocked) then (RefreshFailed, ClearLocalSession(ix, s, Some(cfg.clientId)))
    else if (result == Rejected(MissingRefreshToken) || result == Rejected(InvalidRefreshToken))
      && cfg.useRefreshTokensFallback
    then (UseIframe, s)
    else (RefreshFailed, s)
  }

  /** What a refresh makes of the outcome of its token request. */
  function Conclude(
      cfg: Config, ix: Index, s: Session, cached: Option<Body>, audience: Option<string>, scope: string,
      result: TokenResult)
    : (RefreshResult, Session)
  {
    if result.Issued? then Settle(cfg, ix, s, cached, audience, scope, result)
    else RefreshFailure(cfg, ix, s, result)
  }

  function RefreshKey(cfg: Config, audience: Option<string>, scope: string): CacheKey {
    TokenKey(cfg.clientId, OrElse(audience, DEFAULT_AUDIENCE), scope)
  }

  /** A refresh is over before any request, or its request is sent with the token that was looked up. */
  datatype RefreshStart = NotSent(outcome: RefreshResult) | Sent(cached: Option<Body>)

  /** A refresh up to its request. */
  function BeginRefresh(cfg: Config, ix: Index, s: Session, audience: Option<string>, scope: string, now: int)
    : (RefreshStart, Session)
  {
    var (cached, st') := Get(ix, s.store, RefreshKey(cfg, audience, scope), 0, cfg.useMrrt, false, now);
    (if Truthy(CachedToken(cached)) || cfg.hasWorker then Sent(cached)
     else NotSent(if cfg.useRefreshTokensFallback then UseIframe else NoRefreshToken),
     s.(store := st'))
  }

  /**
   * A refresh from its reply on, in whatever session it then finds. `captured` is the token that was
   * sent; `cached` is the entry looked up at the start, as it reads by now.
   */
  function FinishRefresh(
      cfg: Config, ix: Index, s: Session, cached: Option<Body>, captured: Option<string>,
      audience: Option<string>, scope: string, reply: Reply, now: int)
    : (RefreshResult, Session)
  {
    var req := RefreshRequest(cfg, cached, audience, scope).(refreshToken := captured);
    var (result, s1) := RequestToken(cfg, ix, s, req, reply, now);
    Conclude(cfg, ix, s1, cached, audience, scope, result)
  }

  /** A whole refresh during which nothing else happens. */
  function GetTokenUsingRefreshToken(
      cfg: Config, ix: Index, s: Session, audience: Option<string>, scope: string, reply: Reply, now: int)
    : (RefreshResult, Session)
  {
    var (start, s1) := BeginRefresh(cfg, ix, s, audience, scope, now);
    match start
    case NotSent(outcome) => (outcome, s1)
    case Sent(cached) => FinishRefresh(cfg, ix, s1, cached, CachedToken(cached), audience, scope, reply, now)
  }

  // ------------------------------------------------------------------ revocation

  /** With a worker the cache holds no refresh tokens and one message decides; the worker keeps its own store. */
  function RevokeRefreshToken(
      cfg: Config, ix: Index, s: Session, audience: Option<string>, outcomes: seq<bool>, workerOk: bool)
    : (bool, Session)
  {
    if !cfg.useRefreshTokens then (true, s)
    else
      var api := OrElse(audience, OrElse(cfg.audience, DEFAULT_AUDIENCE));
      var (ok, st') :=
        if cfg.hasWorker then (workerOk, s.store)
        else Revocation.Revoke(ix, s.store, api, cfg.clientId, outcomes);
      var s1 := s.(store := st');
      if ok && cfg.onlineAccess then (ok, ClearLocalSession(ix, s1, Some(cfg.clientId))) else (ok, s1)
  }
}
