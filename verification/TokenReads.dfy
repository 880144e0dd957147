/**
 * What a client reads from its cache: whether a token request is answered before its lock, with which token,
 * and which user is handed out. Every answer is given by the stored entries, the options and the clock alone.
 */
module TokenReads {
  import opened Prelude
  import opened CacheKeys
  import opened TokenStore
  import opened StoreInvariants
  import opened ClientSession
  import opened SessionSafety

  /** The entry under the key holds this access token and is more than 60 seconds, counted whole, from its end. */
  predicate HoldsFresh(st: Store, key: string, token: string, now: int) {
    && key in st.entries && st.entries[key].Token?
    && st.entries[key].body.accessToken == Some(token) && token != ""
    && FloorSeconds(now) <= st.entries[key].expiresAt - 60
  }

  /** A lookup for a token request finds this token: somebody is logged in and the key it resolves to holds it fresh. */
  predicate TokenReady(cfg: Config, ix: Index, s: Session, k: CacheKey, now: int, token: string) {
    StoredId(cfg, s.store).Some? && Resolved(ix, s.store, k).Some?
    && HoldsFresh(s.store, Resolved(ix, s.store, k).value, token, now)
  }

  lemma GrantedIsResolved(ix: Index, st: Store, k: CacheKey, adj: int, useMrrt: bool, cacheOnly: bool, now: int)
    requires Grants(Get(ix, st, k, adj, useMrrt, cacheOnly, now).0)
    ensures Resolved(ix, st, k).Some? && Fresh(st, Resolved(ix, st, k).value, adj, now)
    ensures Get(ix, st, k, adj, useMrrt, cacheOnly, now).0 == Some(st.entries[Resolved(ix, st, k).value].body)
  {
    GrantedExactly(ix, st, k, adj, useMrrt, cacheOnly, now);
  }

  lemma EntryReadExactly(cfg: Config, ix: Index, s: Session, k: CacheKey, cacheOnly: bool, now: int, token: string)
    requires Sound(cfg, ix, s) && token != ""
    ensures GetEntryFromCache(cfg, ix, s, k, cacheOnly, now).0 == Some(token) <==> TokenReady(cfg, ix, s, k, now, token)
  {
    var (body, st') := Get(ix, s.store, k, TOKEN_EXPIRY_LEEWAY_SECONDS, cfg.useMrrt, cacheOnly, now);
    GrantedExactly(ix, s.store, k, TOKEN_EXPIRY_LEEWAY_SECONDS, cfg.useMrrt, cacheOnly, now);
    if Grants(body) {
      GrantedIsResolved(ix, s.store, k, TOKEN_EXPIRY_LEEWAY_SECONDS, cfg.useMrrt, cacheOnly, now);
      GetNarrows(cfg, ix, s.store, k, TOKEN_EXPIRY_LEEWAY_SECONDS, cfg.useMrrt, cacheOnly, now);
      NarrowedStaysSound(cfg, ix, s, s.(store := st'));
      SyncReadsStored(cfg, ix, s.(store := st'), now);
    }
  }

  lemma EntryReadIsReady(cfg: Config, ix: Index, s: Session, k: CacheKey, cacheOnly: bool, now: int)
    requires GetEntryFromCache(cfg, ix, s, k, cacheOnly, now).0.Some?
    ensures GetEntryFromCache(cfg, ix, s, k, cacheOnly, now).0.value != ""
  {
  }

  /** The stored session's ceiling is at most 30 seconds away. */
  predicate CeilingNear(cfg: Config, s: Session, now: int) {
    var id := StoredId(cfg, s.store);
    id.Some? && id.value.claims.sessionExpiry.Seconds? && id.value.claims.sessionExpiry.at - 30 <= FloorSeconds(now)
  }

  /**
   * How a token request stands before its lock: over, when the ceiling is near; answered with a token, when it
   * may use the cache and that is ready; missed, when it may use nothing else; and else on its way to fetch.
   */
  lemma BeforeLockExactly(
      cfg: Config, ix: Index, s: Session, k: CacheKey, mode: CacheMode, now: int, token: string)
    requires Sound(cfg, ix, s) && token != ""
    ensures var r := GetTokenBeforeLock(cfg, ix, s, k, mode, now).0;
            var ready := exists t :: t != "" && TokenReady(cfg, ix, s, k, now, t);
            && (r == Ended <==> CeilingNear(cfg, s, now))
            && (r == Hit(token) <==> !CeilingNear(cfg, s, now) && mode != Off && TokenReady(cfg, ix, s, k, now, token))
            && (r == Missed <==> !CeilingNear(cfg, s, now) && mode == CacheOnly && !ready)
            && (r == GoOn <==> !CeilingNear(cfg, s, now) && mode != CacheOnly && (mode == Off || !ready))
  {
    CheckCeilingEffect(cfg, ix, s, now);
    if !CeilingNear(cfg, s, now) && mode != Off {
      EntryReadExactly(cfg, ix, s, k, mode.CacheOnly?, now, token);
      var found := GetEntryFromCache(cfg, ix, s, k, mode.CacheOnly?, now).0;
      if found.Some? {
        EntryReadIsReady(cfg, ix, s, k, mode.CacheOnly?, now);
        EntryReadExactly(cfg, ix, s, k, mode.CacheOnly?, now, found.value);
      } else if t :| t != "" && TokenReady(cfg, ix, s, k, now, t) {
        EntryReadExactly(cfg, ix, s, k, mode.CacheOnly?, now, t);
      }
    }
  }

  /** The user handed out is the stored one, unless the ceiling is near; then the session is cleared instead. */
  lemma UserExactly(cfg: Config, ix: Index, s: Session, now: int)
    requires Sound(cfg, ix, s)
    ensures var (user, s') := GetUser(cfg, ix, s, now);
            if CeilingNear(cfg, s, now) then user.None? && StoredId(cfg, s'.store).None? && s'.user.None?
            else user == StoredId(cfg, s.store) && s' == Session(s.store, user)
  {
    CheckCeilingEffect(cfg, ix, s, now);
    if CeilingNear(cfg, s, now) {
      ClearedSession(cfg, ix, s, Some(cfg.clientId));
    } else {
      SyncReadsStored(cfg, ix, s, now);
    }
  }

  /** What is stored for a saved reply: everything of it but the id token, under the request's audience and scope. */
  lemma SavedEntryExactly(cfg: Config, ix: Index, s: Session, req: TokenRequest, reply: Reply, now: int)
    requires Sound(cfg, ix, s) && FairReply(reply) && FairRequest(cfg, req.audience, req.scope)
    requires RequestToken(cfg, ix, s, req, reply, now).0.Issued?
    ensures reply.Granted?
    ensures var st' := RequestToken(cfg, ix, s, req, reply, now).1.store;
            var audience := if Truthy(req.audience) then req.audience.value else "default";
            var key := ToKey(TokenKey(cfg.clientId, audience, req.scope));
            && IsToken(st', key) && st'.entries[key].expiresAt == FloorSeconds(now) + reply.expiresIn
            && var body := st'.entries[key].body;
               body == Body(Some(reply.accessToken), body.refreshToken, Some(audience), Some(req.scope), None,
                            Some(Details(cfg.clientId, reply.tokenType, reply.expiresIn,
                                         if Truthy(reply.scope) then reply.scope else None)))
  {
    IssuedIsStored(cfg, ix, s, req, reply, now);
  }

  // ------------------------------------------------------------ the id token

  /**
   * The id token a lookup finds: the client's own entry. Only if there is none, the one that older caches kept
   * inside a token entry, when audience and scope are known and that entry has not expired.
   */
  lemma IdTokenFoundExactly(ix: Index, st: Store, clientId: string, audience: string, scope: string, now: int)
    requires clientId != "" && audience != "" && scope != "" && AllRestorable(st)
    ensures var own, k := IdTokenKey(clientId), TokenKey(clientId, audience, scope);
            GetIdToken(ix, st, k, now).0
            == if own in st.entries then (if st.entries[own].IdToken? then Some(st.entries[own].entry) else None)
               else if Resolved(ix, st, k).Some? then EmbeddedId(st, Resolved(ix, st, k).value, now)
               else None
  {
    var k := TokenKey(clientId, audience, scope);
    if ResolvesToStored(ix, st, k) {
      if st.entries[Resolved(ix, st, k).value].Token? {
        GetServesResolved(ix, st, k, 0, false, false, now);
      }
    } else {
      LendsExactly(ix, st, k, 0, false, false, now);
    }
  }

  /** The id token inside an entry that has not expired. */
  function EmbeddedId(st: Store, key: string, now: int): Option<IdTokenEntry> {
    if key in st.entries && st.entries[key].Token? && FloorSeconds(now) <= st.entries[key].expiresAt
    then st.entries[key].body.idToken else None
  }

  /**
   * A client looks its id token up under its configured audience, or the default one, and the scopes of that.
   * What is in memory is kept while the cache has the same id token.
   */
  lemma SyncedExactly(cfg: Config, ix: Index, s: Session, now: int)
    ensures var audience := if Truthy(cfg.audience) then cfg.audience.value else "default";
            var scope := if audience in cfg.scopes then Some(cfg.scopes[audience]) else None;
            var k := CacheKey("@@auth0spajs@@", Some(cfg.clientId), Some(audience), scope, None);
            var cached := GetIdToken(ix, s.store, k, now).0;
            var (user, s') := SyncUser(cfg, ix, s, now);
            && s'.user == user
            && user == if cached.Some? && s.user.Some? && s.user.value.idToken == cached.value.idToken then s.user
                       else cached
  {
  }

  /** The ceiling that counts is that of the id token in memory; only without one is it the cached one's. */
  lemma MemoryDecides(cfg: Config, ix: Index, s: Session, now: int)
    ensures var id := if s.user.Some? then s.user else StoredId(cfg, s.store);
            CheckCeiling(cfg, ix, s, now).0
            <==> id.Some? && id.value.claims.sessionExpiry.Seconds?
                 && id.value.claims.sessionExpiry.at - 30 <= FloorSeconds(now)
  {
  }

  /** The entries for id tokens and manifests, of any client, never answer a request, not even one without scopes. */
  lemma FixedEntriesNeverServe(clientId: string, k: CacheKey)
    requires Plain(clientId)
    ensures !Serves(IdTokenKey(clientId), k) && !Serves(ManifestKey(clientId), k)
  {
    FixedKeyParts(clientId);
  }
}
