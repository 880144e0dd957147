/** The client class: its token cache and in-memory id token, updated step by step as replies arrive. */
module Auth0Clients {
  import opened Prelude
  import opened CacheKeys
  import S = TokenStore
  import opened Scopes
  import opened CacheManagers
  import C = ClientSession
  import R = Revocation

  class Auth0Client {
    const cfg: C.Config
    const cacheManager: CacheManager
    var userCache: Option<S.IdTokenEntry>

    constructor (cfg: C.Config, cacheManager: CacheManager)
      requires cacheManager.Valid()
      ensures this.cfg == cfg && this.cacheManager == cacheManager && Valid()
      ensures State() == C.Session(cacheManager.Contents(), None)
    {
      this.cfg, this.cacheManager, userCache := cfg, cacheManager, None;
    }

    ghost predicate Valid()
      reads this, cacheManager.cache
    {
      cacheManager.Valid()
    }

    ghost function Footprint(): set<object>
      reads this, cacheManager.cache
    {
      {this, cacheManager.cache} + cacheManager.cache.Bodies()
    }

    ghost function Index(): S.Index {
      cacheManager.Index()
    }

    ghost function State(): C.Session
      reads this, cacheManager.cache, cacheManager.cache.Bodies()
    {
      C.Session(cacheManager.Contents(), userCache)
    }

    /** Returns the in-memory id token while it matches the cached one, so that callers keep the same object. */
    method GetIdTokenFromCache(now: int) returns (r: Option<S.IdTokenEntry>)
      requires Valid()
      modifies this, cacheManager.cache
      ensures Valid() && fresh(Footprint() - old(Footprint()))
      ensures var (result, s') := C.SyncUser(cfg, Index(), old(State()), now); r == result && State() == s'
    {
      var cached := cacheManager.GetIdToken(C.IdTokenLookup(cfg), now);
      if cached.Some? && userCache.Some? && cached.value.idToken == userCache.value.idToken {
        return userCache;
      }
      userCache := cached;
      return cached;
    }

    method ClearLocalSession(clientId: Option<string>)
      requires Valid()
      modifies this, cacheManager.cache
      ensures Valid() && Footprint() <= old(Footprint())
      ensures State() == C.ClearLocalSession(Index(), old(State()), clientId)
    {
      cacheManager.Clear(clientId);
      userCache := None;
    }

    /** The id token whose ceiling counts: in memory if there is one, else the cached one. */
    method CeilingHolder(now: int) returns (holder: Option<S.IdTokenEntry>)
      requires Valid()
      modifies cacheManager.cache
      ensures Valid() && fresh(Footprint() - old(Footprint()))
      ensures State() == old(State()) && holder == C.CeilingHolder(cfg, State())
    {
      if userCache.Some? {
        return userCache;
      }
      holder := cacheManager.GetIdToken(CacheKey(CACHE_KEY_PREFIX, Some(cfg.clientId), None, None, None), now);
    }

    method IsSessionCeilingReached(now: int) returns (reached: bool)
      requires Valid()
      modifies this, cacheManager.cache
      ensures Valid() && fresh(Footprint() - old(Footprint()))
      ensures var (result, s') := C.CheckCeiling(cfg, Index(), old(State()), now); reached == result && State() == s'
    {
      var holder := CeilingHolder(now);
      if holder.None? || !holder.value.claims.sessionExpiry.Seconds? {
        return false;
      }
      if FloorSeconds(now) >= holder.value.claims.sessionExpiry.at - C.SESSION_EXPIRY_LEEWAY_SECONDS {
        ClearLocalSession(Some(cfg.clientId));
        return true;
      }
      return false;
    }

    method GetUser(now: int) returns (user: Option<S.IdTokenEntry>)
      requires Valid()
      modifies this, cacheManager.cache
      ensures Valid() && fresh(Footprint() - old(Footprint()))
      ensures var (result, s') := C.GetUser(cfg, Index(), old(State()), now); user == result && State() == s'
    {
      var reached := IsSessionCeilingReached(now);
      if reached {
        return None;
      }
      user := GetIdTokenFromCache(now);
    }

    /** What a looked-up body reads as now. */
    ghost function AsRead(body: TokenBody?): Option<S.Body>
      reads body
    {
      if body == null then None else Some(body.Value())
    }

    method Read(body: TokenBody?) returns (cached: Option<S.Body>)
      ensures cached == AsRead(body)
    {
      if body == null {
        return None;
      }
      return Some(S.Body(body.accessToken, body.refreshToken, body.audience, body.scope, body.idToken, body.details));
    }

    /** A lookup in the token cache; the result is the live body. */
    method LookupLive(k: CacheKey, adjustment: int, cacheOnly: bool, now: int) returns (body: TokenBody?)
      requires Valid()
      modifies cacheManager.cache
      ensures Valid() && fresh(Footprint() - old(Footprint())) && userCache == old(userCache)
      ensures var (result, st') := S.Get(Index(), old(State()).store, k, adjustment, cfg.useMrrt, cacheOnly, now);
              AsRead(body) == result && State().store == st'
    {
      ghost var found := S.Get(Index(), cacheManager.Contents(), k, adjustment, cfg.useMrrt, cacheOnly, now);
      body := cacheManager.Get(k, adjustment, cfg.useMrrt, cacheOnly, now);
      assert AsRead(body) == found.0;
    }

    /** A lookup whose result is read at once. */
    method Lookup(k: CacheKey, adjustment: int, cacheOnly: bool, now: int) returns (cached: Option<S.Body>)
      requires Valid()
      modifies cacheManager.cache
      ensures Valid() && fresh(Footprint() - old(Footprint())) && userCache == old(userCache)
      ensures var (result, st') := S.Get(Index(), old(State()).store, k, adjustment, cfg.useMrrt, cacheOnly, now);
              cached == result && State().store == st'
    {
      var body := LookupLive(k, adjustment, cacheOnly, now);
      cached := Read(body);
    }

    method GetEntryFromCache(k: CacheKey, cacheOnly: bool, now: int) returns (token: Option<string>)
      requires Valid()
      modifies this, cacheManager.cache
      ensures Valid() && fresh(Footprint() - old(Footprint()))
      ensures var (result, s') := C.GetEntryFromCache(cfg, Index(), old(State()), k, cacheOnly, now);
              token == result && State() == s'
    {
      var body := Lookup(k, C.TOKEN_EXPIRY_LEEWAY_SECONDS, cacheOnly, now);
      if body.Some? && Truthy(body.value.accessToken) {
        var id := GetIdTokenFromCache(now);
        return if id.Some? then body.value.accessToken else None;
      }
      return None;
    }

    method GetTokenBeforeLock(k: CacheKey, mode: CacheMode, now: int) returns (r: C.BeforeLock)
      requires Valid()
      modifies this, cacheManager.cache
      ensures Valid() && fresh(Footprint() - old(Footprint()))
      ensures var (result, s') := C.GetTokenBeforeLock(cfg, Index(), old(State()), k, mode, now);
              r == result && State() == s'
    {
      var reached := IsSessionCeilingReached(now);
      if reached {
        return C.Ended;
      }
      if mode != Off {
        var token := GetEntryFromCache(k, mode == CacheOnly, now);
        if token.Some? {
          return C.Hit(token.value);
        }
      }
      return if mode == CacheOnly then C.Missed else C.GoOn;
    }

    /** Writes nothing when the ceiling is not acceptable. */
    method SaveEntryInCache(idToken: S.IdTokenEntry, entry: S.CacheEntry, now: int) returns (ok: bool)
      requires Valid()
      modifies this, cacheManager.cache
      ensures Valid() && fresh(Footprint() - old(Footprint()))
      ensures ok == C.CeilingAccepted(idToken.claims)
      ensures State() == if ok then C.SaveEntry(cfg, Index(), old(State()), idToken, entry, now) else old(State())
    {
      match idToken.claims.sessionExpiry {
        case NoCeiling =>
        case NotANumber => return false;
        case Seconds(at) =>
          if at >= C.MILLISECOND_MAGNITUDE { return false; }
          if idToken.claims.iat.None? || at <= idToken.claims.iat.value { return false; }
      }
      userCache := Some(idToken);
      cacheManager.SetIdToken(cfg.clientId, idToken);
      cacheManager.Set(entry, now);
      return true;
    }

    /** Online refresh tokens do not rotate: a reply without one keeps the token in use. */
    method CarryToken(req: C.TokenRequest, replied: Option<string>, now: int) returns (token: Option<string>)
      requires Valid()
      modifies cacheManager.cache
      ensures Valid() && fresh(Footprint() - old(Footprint()))
      ensures var (result, s') := C.CarryToken(cfg, Index(), old(State()), req, replied, now);
              token == result && State() == s'
    {
      if Truthy(replied) || !cfg.onlineAccess {
        return replied;
      }
      if req.refreshToken.Some? {
        return req.refreshToken;
      }
      var k := TokenKey(cfg.clientId, OrElse(req.audience, DEFAULT_AUDIENCE), OrElse(req.scopesToRequest, req.scope));
      var cached := Lookup(k, 0, false, now);
      token := C.CachedToken(cached);
    }

    /** Clears on a change of user for a code grant; pins a stored ceiling for every other grant. */
    method BeforeSave(req: C.TokenRequest, reply: C.Reply, now: int) returns (claims: S.Claims)
      requires Valid() && reply.Granted?
      modifies this, cacheManager.cache
      ensures Valid() && fresh(Footprint() - old(Footprint()))
      ensures var (result, s') := C.BeforeSave(cfg, Index(), old(State()), req, reply, now);
              claims == result && State() == s'
    {
      claims := reply.claims;
      var existing := GetIdTokenFromCache(now);
      if req.isCode {
        if existing.Some? && existing.value.claims.sub != "" && existing.value.claims.sub != claims.sub {
          ClearLocalSession(Some(cfg.clientId));
        }
      } else if existing.Some? && !existing.value.claims.sessionExpiry.NoCeiling? {
        claims := claims.(sessionExpiry := existing.value.claims.sessionExpiry);
      }
    }

    method RequestToken(req: C.TokenRequest, reply: C.Reply, now: int) returns (result: C.TokenResult)
      requires Valid()
      modifies this, cacheManager.cache
      ensures Valid() && fresh(Footprint() - old(Footprint()))
      ensures var (r, s') := C.RequestToken(cfg, Index(), old(State()), req, reply, now); result == r && State() == s'
    {
      match reply {
        case Refused(why) => return C.Rejected(why);
        case Unverified => return C.VerificationFailed;
        case Granted(accessToken, replied, scope, _, _, idToken, _) =>
          var claims := BeforeSave(req, reply, now);
          var refreshToken := CarryToken(req, replied, now);
          var ok := SaveEntryInCache(S.IdTokenEntry(idToken, claims), C.EntryFor(cfg, req, reply, refreshToken), now);
          return if ok then C.Issued(accessToken, refreshToken, scope, claims) else C.InvalidCeiling;
      }
    }

    /** Skipped in online mode, and when there was no refresh token before or after. */
    method PropagateRotatedRefreshToken(previous: Option<string>, next: Option<string>)
      requires Valid()
      modifies cacheManager.cache, cacheManager.cache.Bodies()
      ensures Valid() && fresh(Footprint() - old(Footprint())) && userCache == old(userCache)
      ensures State() == C.Propagate(cfg, Index(), old(State()), previous, next)
    {
      if cfg.onlineAccess || !Truthy(next) || !Truthy(previous) {
        return;
      }
      cacheManager.UpdateEntry(previous.value, next.value, cfg.clientId, cfg.useMrrt);
    }

    /** Propagates the rotated token, then takes the entry back out when scopes are missing. */
    method Settle(
        cached: Option<S.Body>, audience: Option<string>, scope: string,
        result: C.TokenResult)
      returns (r: C.RefreshResult)
      requires Valid() && result.Issued?
      modifies this, cacheManager.cache, cacheManager.cache.Bodies()
      ensures Valid() && fresh(Footprint() - old(Footprint()))
      ensures var (outcome, s') := C.Settle(cfg, Index(), old(State()), cached, audience, scope, result);
              r == outcome && State() == s'
    {
      PropagateRotatedRefreshToken(C.CachedToken(cached), result.refreshToken);
      if cfg.useMrrt && IsRefreshWithMrrt(C.CachedAudience(cached), C.CachedScope(cached), audience, scope) {
        var sent := GetScopeToRequest(cfg.useMrrt, audience, scope, C.CachedAudience(cached), C.CachedScope(cached));
        var missing := GetMissingScopes(Some(sent), result.scope, cfg.onlineAccess);
        if missing != "" {
          if cfg.useRefreshTokensFallback {
            return C.UseIframe;
          }
          cacheManager.Remove(cfg.clientId, Some(OrElse(audience, DEFAULT_AUDIENCE)), Some(scope));
          return C.MissingScopes(missing);
        }
      }
      return C.Refreshed(result.accessToken);
    }

    /** A blocked user is logged out at once; a missing or invalid refresh token may fall back to the iframe. */
    method RefreshFailure(result: C.TokenResult) returns (r: C.RefreshResult)
      requires Valid()
      modifies this, cacheManager.cache
      ensures Valid() && fresh(Footprint() - old(Footprint()))
      ensures var (outcome, s') := C.RefreshFailure(cfg, Index(), old(State()), result); r == outcome && State() == s'
    {
      if result == C.Rejected(C.UserBlocked) {
        ClearLocalSession(Some(cfg.clientId));
        return C.RefreshFailed;
      }
      if (result == C.Rejected(C.MissingRefreshToken) || result == C.Rejected(C.InvalidRefreshToken))
        && cfg.useRefreshTokensFallback {
        return C.UseIframe;
      }
      return C.RefreshFailed;
    }

    /**
     * A refresh up to its request. The looked-up body is kept across the request as the live object it
     * is; the token that is sent is captured.
     */
    method BeginRefresh(audience: Option<string>, scope: string, now: int)
      returns (start: C.RefreshStart, body: TokenBody?)
      requires Valid()
      modifies cacheManager.cache
      ensures Valid() && fresh(Footprint() - old(Footprint())) && userCache == old(userCache)
      ensures var (result, s') := C.BeginRefresh(cfg, Index(), old(State()), audience, scope, now);
              start == result && State() == s'
      ensures start.Sent? ==> start.cached == AsRead(body)
    {
      body := LookupLive(C.RefreshKey(cfg, audience, scope), 0, false, now);
      var cached := Read(body);
      if !Truthy(C.CachedToken(cached)) && !cfg.hasWorker {
        start := C.NotSent(if cfg.useRefreshTokensFallback then C.UseIframe else C.NoRefreshToken);
      } else {
        start := C.Sent(cached);
      }
    }

    /**
     * A refresh from its reply on. The body is read again only now: a rotation may have written another
     * token into it, or a revocation none.
     */
    method FinishRefresh(
        body: TokenBody?, captured: Option<string>, audience: Option<string>, scope: string, reply: C.Reply, now: int)
      returns (r: C.RefreshResult)
      requires Valid()
      modifies this, cacheManager.cache, cacheManager.cache.Bodies()
      ensures Valid() && fresh(Footprint() - old(Footprint()))
      ensures var (outcome, s') := C.FinishRefresh(
                cfg, Index(), old(State()), old(AsRead(body)), captured, audience, scope, reply, now);
              r == outcome && State() == s'
    {
      ghost var s0, view := State(), AsRead(body);
      var req := RefreshRequest(body, captured, audience, scope);
      var result := RequestToken(req, reply, now);
      ghost var s1 := State();
      var cached := Read(body);
      assert (result, s1) == C.RequestToken(cfg, Index(), s0, req, reply, now) && cached == view;
      r := Conclude(cached, audience, scope, result);
    }

    /** The request of a refresh; audience and scope of a body never change. */
    function RefreshRequest(body: TokenBody?, captured: Option<string>, audience: Option<string>, scope: string)
      : (req: C.TokenRequest)
      reads body
      ensures req == C.RefreshRequest(cfg, AsRead(body), audience, scope).(refreshToken := captured)
    {
      var cachedAudience := if body == null then None else body.audience;
      var cachedScope := if body == null then None else body.scope;
      C.TokenRequest(
        false, audience, scope, Some(GetScopeToRequest(cfg.useMrrt, audience, scope, cachedAudience, cachedScope)),
        captured)
    }

    method Conclude(cached: Option<S.Body>, audience: Option<string>, scope: string, result: C.TokenResult)
      returns (r: C.RefreshResult)
      requires Valid()
      modifies this, cacheManager.cache, cacheManager.cache.Bodies()
      ensures Valid() && fresh(Footprint() - old(Footprint()))
      ensures var (outcome, s') := C.Conclude(cfg, Index(), old(State()), cached, audience, scope, result);
              r == outcome && State() == s'
    {
      if result.Issued? {
        r := Settle(cached, audience, scope, result);
      } else {
        r := RefreshFailure(result);
      }
    }

    /** One request per token; a token is stripped from the cache as soon as its request was accepted. */
    method RevokeTokens(tokens: seq<string>, outcomes: seq<bool>) returns (ok: bool)
      requires Valid()
      modifies cacheManager.cache, cacheManager.cache.Bodies()
      ensures Valid() && Footprint() == old(Footprint()) && userCache == old(userCache)
      ensures cacheManager.cache.record == old(cacheManager.cache.record)
      ensures var n := R.Accepted(tokens, outcomes);
              ok == (n == |tokens|) && State().store == R.StripAll(Index(), old(State()).store, tokens[..n])
    {
      for i := 0 to |tokens|
        invariant Valid() && userCache == old(userCache) && cacheManager.cache.record == old(cacheManager.cache.record)
        invariant Footprint() == old(Footprint())
        invariant i <= |outcomes| && forall j :: 0 <= j < i ==> outcomes[j]
        invariant cacheManager.Contents() == R.StripAll(Index(), old(cacheManager.Contents()), tokens[..i])
      {
        if i >= |outcomes| || !outcomes[i] {
          R.AcceptedIsFirstFailure(tokens, outcomes, i);
          return false;
        }
        assert tokens[..i + 1][..i] == tokens[..i];
        cacheManager.StripRefreshToken(tokens[i]);
      }
      R.AcceptedIsFirstFailure(tokens, outcomes, |tokens|);
      return true;
    }

    method RevokeRefreshToken(audience: Option<string>, outcomes: seq<bool>, workerOk: bool) returns (ok: bool)
      requires Valid()
      modifies this, cacheManager.cache, cacheManager.cache.Bodies()
      ensures Valid() && Footprint() <= old(Footprint())
      ensures var (result, s') := C.RevokeRefreshToken(cfg, Index(), old(State()), audience, outcomes, workerOk);
              ok == result && State() == s'
    {
      if !cfg.useRefreshTokens {
        return true;
      }
      if cfg.hasWorker {
        ok := workerOk;
      } else {
        var api := OrElse(audience, OrElse(cfg.audience, DEFAULT_AUDIENCE));
        var tokens := cacheManager.GetRefreshTokensByAudience(api, cfg.clientId);
        ok := RevokeTokens(tokens, outcomes);
      }
      if ok && cfg.onlineAccess {
        ClearLocalSession(Some(cfg.clientId));
      }
    }
  }
}
