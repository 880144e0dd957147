/**
 * A refresh for another audience, or for more scopes, that does not get all scopes is refused after
 * its reply was already saved and its rotated token propagated. What is left of it in the cache?
 */
module UpscopeRollback {
  import opened Prelude
  import opened CacheKeys
  import opened TokenStore
  import opened StoreInvariants
  import opened ClientSession
  import opened SessionSafety
  import I = IndexRefinement
  import Scopes

  // ------------------------------------------------------------ comparing token entries

  /** The token entry after the rotation to `next`, if there was one. */
  function RotatedFor(cfg: Config, key: string, v: Value, next: Option<string>): Value {
    if next.Some? && v.Token? && FromKey(key).clientId == Some(cfg.clientId) && Truthy(v.body.refreshToken)
    then v.(body := v.body.(refreshToken := next)) else v
  }

  /** Apart from `key`, the token entries are the same up to the rotation. */
  ghost predicate SameTokens(cfg: Config, st: Store, st': Store, key: string, next: Option<string>) {
    && (forall k :: k != key ==> (IsToken(st', k) <==> IsToken(st, k)))
    && (forall k :: k != key && IsToken(st, k) ==> st'.entries[k] == RotatedFor(cfg, k, st.entries[k], next))
  }

  lemma SaveKeepsTokens(cfg: Config, ix: Index, st: Store, idToken: IdTokenEntry, key: string, v: Value)
    requires OwnIndex(cfg, ix) && StoreSound(cfg, ix, st) && v.Token?
    requires Restorable(key) && !IsManifestKey(ix, key) && key != IdTokenKey(cfg.clientId)
    ensures var st' := PutNoted(ix, SetIdToken(ix, st, cfg.clientId, idToken), key, v);
            Inv(ix, st') && SameTokens(cfg, st, st', key, None)
  {
    IdTokenKeyIsNotManifest(cfg, ix);
    var st1 := PutNoted(ix, st, IdTokenKey(cfg.clientId), IdToken(idToken));
    NotedEffect(ix, st, IdTokenKey(cfg.clientId), IdToken(idToken));
    NotedEffect(ix, st1, key, v);
    TwoStoresKeepTokens(cfg, ix, st, st1, PutNoted(ix, st1, key, v), idToken, key, v);
  }

  lemma TwoStoresKeepTokens(
      cfg: Config, ix: Index, st: Store, st1: Store, st2: Store, idToken: IdTokenEntry, key: string, v: Value)
    requires StoreSound(cfg, ix, st) && !IsManifestKey(ix, IdTokenKey(cfg.clientId)) && !IsManifestKey(ix, key)
    requires Stored(ix, st, IdTokenKey(cfg.clientId), IdToken(idToken), st1) && Stored(ix, st1, key, v, st2)
    ensures SameTokens(cfg, st, st2, key, None)
  {
    forall k | IsManifestKey(ix, k)
      ensures !IsToken(st, k)
    {
    }
  }

  lemma PropagateRotatesTokens(
      cfg: Config, ix: Index, s: Session, previous: Option<string>, next: Option<string>, st: Store, key: string)
    requires Inv(ix, s.store) && SameTokens(cfg, st, s.store, key, None) && cfg.useMrrt
    ensures var rotated := if cfg.onlineAccess || !Truthy(next) || !Truthy(previous) then None else next;
            SameTokens(cfg, st, Propagate(cfg, ix, s, previous, next).store, key, rotated)
  {
  }

  lemma DropKeepsTokens(cfg: Config, st: Store, st1: Store, key: string, next: Option<string>)
    requires SameTokens(cfg, st, st1, key, next)
    ensures SameTokens(cfg, st, Delete(st1, key), key, next) && !IsToken(Delete(st1, key), key)
  {
  }

  lemma OwnKeyIsMine(cfg: Config, audience: Option<string>, scope: string)
    requires cfg.clientId != ""
    ensures Mine(cfg, RequestKey(cfg, audience, scope))
  {
    I.EntryKeyNamesClient(cfg.clientId, OrElse(audience, Scopes.DEFAULT_AUDIENCE), scope);
  }

  // ------------------------------------------------------------ where the refresh token came from

  /** The lookup found an entry for this very request: same audience, all the scopes. */
  predicate WithinGrant(k: CacheKey, b: Body) {
    b.audience == k.audience && Scopes.AllScopesAreIncluded(k.scope, b.scope)
  }

  lemma DescribedWithin(k: CacheKey, stored: CacheKey, b: Body)
    requires b.audience == stored.audience == k.audience && b.scope == stored.scope
    requires forall s :: s in ScopeWords(k.scope) ==> s in ScopeWords(stored.scope)
    ensures WithinGrant(k, b)
  {
    assert Scopes.Listed(k.scope) == ScopeWords(k.scope) && Scopes.Listed(b.scope) == ScopeWords(stored.scope);
  }

  lemma ServedIsWithinGrant(cfg: Config, ix: Index, st: Store, k: CacheKey, key: string, b: Body)
    requires OwnIndex(cfg, ix) && StoreSound(cfg, ix, st) && ServedFrom(st, k, key)
    requires k.prefix == CACHE_KEY_PREFIX && Representable(k) && k.clientId == Some(cfg.clientId)
    requires b == st.entries[key].body || b == Stripped(st.entries[key].body)
    ensures WithinGrant(k, b)
  {
    ServedAnswers(st, k, key);
    ReadKeyIsMine(cfg, key);
    assert Described(key, st.entries[key]);
    DescribedWithin(k, FromKey(key), b);
  }

  /** Serving an entry that holds a refresh token keeps it among the tokens. */
  lemma ServeKeepsTokens(ix: Index, st: Store, key: string, now: int)
    requires key in st.entries
    ensures var (r, st') := Serve(ix, st, st.entries[key], key, 0, now);
            Truthy(CachedToken(r)) ==>
              && IsToken(st, key) && (r.value == st.entries[key].body || r.value == Stripped(st.entries[key].body))
              && forall k :: IsToken(st', k) <==> IsToken(st, k)
  {
  }

  /**
   * A refresh token found by a lookup either comes from an entry within the grant, or was lent by
   * another entry; then the request's own key held no token and the lookup changed nothing.
   */
  lemma HitOrLent(cfg: Config, ix: Index, st: Store, k: CacheKey, now: int)
    requires OwnIndex(cfg, ix) && StoreSound(cfg, ix, st)
    requires k.prefix == CACHE_KEY_PREFIX && Representable(k) && k.clientId == Some(cfg.clientId)
    ensures var (cached, st') := Get(ix, st, k, 0, cfg.useMrrt, false, now);
            Truthy(CachedToken(cached)) ==>
              && (WithinGrant(k, cached.value) || (st' == st && ToKey(k) !in st.entries))
              && forall key :: IsToken(st', key) <==> IsToken(st, key)
  {
    var cached := Get(ix, st, k, 0, cfg.useMrrt, false, now).0;
    if Truthy(CachedToken(cached)) {
      if ToKey(k) in st.entries {
        ServeKeepsTokens(ix, st, ToKey(k), now);
        ServedIsWithinGrant(cfg, ix, st, k, ToKey(k), cached.value);
      } else {
        var keys := KeyList(ix, st).value;
        var found := FirstServing(keys, k);
        FirstServingIsFirst(keys, k);
        if found.Some? && found.value in st.entries {
          if st.entries[found.value].Token? {
            ResolvedKeyIsExact(found.value);
            ServeKeepsTokens(ix, st, found.value, now);
            ServedIsWithinGrant(cfg, ix, st, k, found.value, cached.value);
          }
        }
      }
    }
  }

  // ------------------------------------------------------------ the refused refresh

  /** The refresh token a reply brings, when it is one that gets propagated; `cached` as it reads by then. */
  function RotatedTo(cfg: Config, cached: Option<Body>, reply: Reply): Option<string> {
    if !cfg.onlineAccess && Truthy(CachedToken(cached)) && reply.Granted? && Truthy(reply.refreshToken)
    then reply.refreshToken else None
  }

  lemma SaveEntryKeepsTokens(cfg: Config, ix: Index, s: Session, idToken: IdTokenEntry, e: CacheEntry, now: int)
    requires Sound(cfg, ix, s) && SavableEntry(cfg, ix, e)
    ensures var s' := SaveEntry(cfg, ix, s, idToken, e, now);
            Inv(ix, s'.store) && SameTokens(cfg, s.store, s'.store, EntryKey(e), None)
  {
    SaveKeepsTokens(cfg, ix, s.store, idToken, EntryKey(e), Stamped(e, now));
  }

  /** The token of the result is the one of the reply, unless it is carried over online. */
  lemma IssuedToken(cfg: Config, ix: Index, s: Session, req: TokenRequest, reply: Reply, now: int)
    requires RequestToken(cfg, ix, s, req, reply, now).0.Issued? && !cfg.onlineAccess
    ensures reply.Granted? && RequestToken(cfg, ix, s, req, reply, now).0.refreshToken == reply.refreshToken
  {
  }

  /** Offline, or with a refresh token in the request, nothing is looked up before the save. */
  lemma FinishKeepsTokens(cfg: Config, ix: Index, s: Session, req: TokenRequest, reply: Reply, claims: Claims, now: int)
    requires reply.Granted? && (req.refreshToken.Some? || !cfg.onlineAccess) && CeilingAccepted(claims)
    requires Sound(cfg, ix, s) && FairRequest(cfg, req.audience, req.scope)
    ensures var s1 := FinishRequest(cfg, ix, s, req, reply, claims, now).1;
            Inv(ix, s1.store) && SameTokens(cfg, s.store, s1.store, RequestKey(cfg, req.audience, req.scope), None)
  {
    var refreshToken := CarryToken(cfg, ix, s, req, reply.refreshToken, now).0;
    EntryIsSavable(cfg, ix, req, reply, refreshToken);
    SaveEntryKeepsTokens(cfg, ix, s, IdTokenEntry(reply.idToken, claims), EntryFor(cfg, req, reply, refreshToken), now);
  }

  /** A refresh request that is issued saves one entry and touches no other token entry. */
  lemma IssuedRefresh(cfg: Config, ix: Index, s: Session, req: TokenRequest, reply: Reply, now: int)
    requires Sound(cfg, ix, s) && FairReply(reply) && FairRequest(cfg, req.audience, req.scope)
    requires (req.refreshToken.Some? || !cfg.onlineAccess) && !req.isCode
    requires RequestToken(cfg, ix, s, req, reply, now).0.Issued?
    ensures var s1 := RequestToken(cfg, ix, s, req, reply, now).1;
            Inv(ix, s1.store) && SameTokens(cfg, s.store, s1.store, RequestKey(cfg, req.audience, req.scope), None)
  {
    var (claims, s0) := BeforeSave(cfg, ix, s, req, reply, now);
    BeforeSaveIsSound(cfg, ix, s, req, reply, now);
    FinishKeepsTokens(cfg, ix, s0, req, reply, claims, now);
  }

  /**
   * A refresh that is refused, in whatever session it finds at its reply: the token entries stored by
   * then stay, their refresh tokens rotated if the reply brought a new one, except that none is left
   * under the request's own key. A worker's refresh may be sent without a cached token; offline that
   * makes no difference.
   */
  lemma RefusedAtReply(
      cfg: Config, ix: Index, s: Session, cached: Option<Body>, captured: Option<string>,
      audience: Option<string>, scope: string, reply: Reply, now: int)
    requires Sound(cfg, ix, s) && FairReply(reply) && FairRequest(cfg, audience, scope)
    requires captured.Some? || !cfg.onlineAccess
    requires FinishRefresh(cfg, ix, s, cached, captured, audience, scope, reply, now).0.MissingScopes?
    ensures RefusalLeaves(
              cfg, s.store, FinishRefresh(cfg, ix, s, cached, captured, audience, scope, reply, now).1.store,
              cached, audience, scope, reply)
  {
    var req := RefreshRequest(cfg, cached, audience, scope).(refreshToken := captured);
    var (result, s1) := RequestToken(cfg, ix, s, req, reply, now);
    if result.Issued? {
      IssuedRefresh(cfg, ix, s, req, reply, now);
      if !cfg.onlineAccess {
        IssuedToken(cfg, ix, s, req, reply, now);
      }
    }
    ConcludedRefusal(cfg, ix, s1, cached, audience, scope, result, s.store, reply);
  }

  lemma ConcludedRefusal(
      cfg: Config, ix: Index, s: Session, cached: Option<Body>, audience: Option<string>, scope: string,
      result: TokenResult, st: Store, reply: Reply)
    requires Conclude(cfg, ix, s, cached, audience, scope, result).0.MissingScopes?
    requires result.Issued? ==>
      && Inv(ix, s.store) && SameTokens(cfg, st, s.store, RequestKey(cfg, audience, scope), None)
      && (!cfg.onlineAccess ==> reply.Granted? && result.refreshToken == reply.refreshToken)
    ensures RefusalLeaves(
              cfg, st, Conclude(cfg, ix, s, cached, audience, scope, result).1.store, cached, audience, scope, reply)
  {
    SettledRefusal(cfg, ix, s, cached, audience, scope, result, st, reply);
  }

  /** What a refused upscope leaves, and that it went beyond the cached grant. */
  ghost predicate RefusalLeaves(
      cfg: Config, st: Store, st': Store, cached: Option<Body>, audience: Option<string>, scope: string, reply: Reply)
  {
    && SameTokens(cfg, st, st', RequestKey(cfg, audience, scope), RotatedTo(cfg, cached, reply))
    && !IsToken(st', RequestKey(cfg, audience, scope))
    && Scopes.IsRefreshWithMrrt(CachedAudience(cached), CachedScope(cached), audience, scope)
  }

  lemma SettledRefusal(
      cfg: Config, ix: Index, s: Session, cached: Option<Body>, audience: Option<string>, scope: string,
      result: TokenResult, st: Store, reply: Reply)
    requires result.Issued? && Inv(ix, s.store)
    requires Settle(cfg, ix, s, cached, audience, scope, result).0.MissingScopes?
    requires SameTokens(cfg, st, s.store, RequestKey(cfg, audience, scope), None)
    requires !cfg.onlineAccess ==> reply.Granted? && result.refreshToken == reply.refreshToken
    ensures RefusalLeaves(
              cfg, st, Settle(cfg, ix, s, cached, audience, scope, result).1.store, cached, audience, scope, reply)
  {
    var key := RequestKey(cfg, audience, scope);
    var s1 := Propagate(cfg, ix, s, CachedToken(cached), result.refreshToken);
    PropagateRotatesTokens(cfg, ix, s, CachedToken(cached), result.refreshToken, st, key);
    DropKeepsTokens(cfg, st, s1.store, key, RotatedTo(cfg, cached, reply));
  }

  /** What the lookup of a refresh that found a token leaves of the token entries. */
  lemma LookupForRefresh(
      cfg: Config, ix: Index, s: Session, audience: Option<string>, scope: string, now: int, cached: Option<Body>,
      s1: Session)
    requires Sound(cfg, ix, s) && FairRequest(cfg, audience, scope) && Truthy(CachedToken(cached))
    requires BeginRefresh(cfg, ix, s, audience, scope, now) == (Sent(cached), s1)
    ensures Sound(cfg, ix, s1) && StoredId(cfg, s1.store) == StoredId(cfg, s.store)
    ensures forall k :: IsToken(s1.store, k) <==> IsToken(s.store, k)
    ensures forall k :: IsToken(s.store, k) ==>
              s1.store.entries[k] == s.store.entries[k] || s1.store.entries[k] == StrippedValue(s.store.entries[k])
    ensures WithinGrant(RefreshKey(cfg, audience, scope), cached.value)
            || (s1.store == s.store && RequestKey(cfg, audience, scope) !in s.store.entries)
  {
    var k := RefreshKey(cfg, audience, scope);
    HitOrLent(cfg, ix, s.store, k, now);
    BeginRefreshEffect(cfg, ix, s, audience, scope, now);
    GetKeepsOrStrips(ix, s.store, k, cfg.useMrrt, now, s1.store);
  }

  lemma GetKeepsOrStrips(ix: Index, st: Store, k: CacheKey, useMrrt: bool, now: int, st': Store)
    requires Inv(ix, st) && st' == Get(ix, st, k, 0, useMrrt, false, now).1
    ensures forall key :: IsToken(st, key) && IsToken(st', key) ==>
              st'.entries[key] == st.entries[key] || st'.entries[key] == StrippedValue(st.entries[key])
  {
    var hit := GetEffect(ix, st, k, 0, useMrrt, false, now);
    if ServedFrom(st, k, hit) {
      TouchedKeepsOrStrips(ix, st, hit, now, st');
    }
  }

  lemma TouchedKeepsOrStrips(ix: Index, st: Store, hit: string, now: int, st': Store)
    requires Inv(ix, st) && IsToken(st, hit) && Touched(ix, st, hit, 0, now, st')
    ensures forall key :: IsToken(st, key) && IsToken(st', key) ==>
              st'.entries[key] == st.entries[key] || st'.entries[key] == StrippedValue(st.entries[key])
  {
    TouchedKeepsInv(ix, st, hit, 0, now, st');
  }

  function StrippedValue(v: Value): Value
    requires v.Token?
  {
    Token(Stripped(v.body), v.expiresAt)
  }

  /**
   * Whenever an undisturbed refresh ends in missing scopes the token entries are the earlier ones, as
   * its lookup left them (expired ones may be stripped), with their refresh tokens rotated if the
   * reply brought a new one, except that the entry under the request's own key is gone. So an entry is
   * lost exactly when one was stored under that key before.
   */
  lemma RefusedRefreshKeepsTheRest(
      cfg: Config, ix: Index, s: Session, audience: Option<string>, scope: string, reply: Reply, now: int)
    requires Sound(cfg, ix, s) && FairReply(reply) && FairRequest(cfg, audience, scope) && !cfg.hasWorker
    requires GetTokenUsingRefreshToken(cfg, ix, s, audience, scope, reply, now).0.MissingScopes?
    ensures var s' := GetTokenUsingRefreshToken(cfg, ix, s, audience, scope, reply, now).1;
            var key := RequestKey(cfg, audience, scope);
            var (start, s1) := BeginRefresh(cfg, ix, s, audience, scope, now);
            && start.Sent? && !IsToken(s'.store, key)
            && (forall k :: k != key ==> (IsToken(s'.store, k) <==> IsToken(s.store, k)))
            && (forall k :: k != key && IsToken(s.store, k) ==>
                 && IsToken(s1.store, k)
                 && (s1.store.entries[k] == s.store.entries[k]
                   || s1.store.entries[k] == StrippedValue(s.store.entries[k]))
                 && s'.store.entries[k] == RotatedFor(cfg, k, s1.store.entries[k], RotatedTo(cfg, start.cached, reply)))
            && ((forall k :: IsToken(s.store, k) ==> IsToken(s'.store, k)) <==> !IsToken(s.store, key))
  {
    var (start, s1) := BeginRefresh(cfg, ix, s, audience, scope, now);
    LookupForRefresh(cfg, ix, s, audience, scope, now, start.cached, s1);
    RefusedAtReply(cfg, ix, s1, start.cached, CachedToken(start.cached), audience, scope, reply, now);
  }

  lemma ExplicitWithin(k: CacheKey, b: Body, audience: Option<string>, scope: string)
    requires Truthy(audience) && k.audience == audience && k.scope == Some(scope)
    ensures WithinGrant(k, b) ==> !Scopes.IsRefreshWithMrrt(b.audience, b.scope, audience, scope)
  {
  }

  /**
   * Rollback. For an explicitly named audience nothing is lost and nothing under-scoped remains: the
   * token entries are exactly the earlier ones, with their refresh tokens rotated if the reply brought
   * a new one.
   */
  lemma RefusedUpscopeRollsBack(
      cfg: Config, ix: Index, s: Session, audience: Option<string>, scope: string, reply: Reply, now: int)
    requires Sound(cfg, ix, s) && FairReply(reply) && FairRequest(cfg, audience, scope) && !cfg.hasWorker
    requires Truthy(audience)
    requires GetTokenUsingRefreshToken(cfg, ix, s, audience, scope, reply, now).0.MissingScopes?
    ensures var s' := GetTokenUsingRefreshToken(cfg, ix, s, audience, scope, reply, now).1;
            var (start, _) := BeginRefresh(cfg, ix, s, audience, scope, now);
            && start.Sent?
            && (forall k :: IsToken(s'.store, k) <==> IsToken(s.store, k))
            && (forall k :: IsToken(s.store, k) ==>
                 s'.store.entries[k] == RotatedFor(cfg, k, s.store.entries[k], RotatedTo(cfg, start.cached, reply)))
  {
    var (start, s1) := BeginRefresh(cfg, ix, s, audience, scope, now);
    LookupForRefresh(cfg, ix, s, audience, scope, now, start.cached, s1);
    RefusedAtReply(cfg, ix, s1, start.cached, CachedToken(start.cached), audience, scope, reply, now);
    ExplicitWithin(RefreshKey(cfg, audience, scope), start.cached.value, audience, scope);
  }

  /**
   * Without an explicit audience the guarantee fails: the entry of the default audience counts as one
   * for another audience, so a reply that misses a scope removes it, refresh token included.
   */
  lemma ImplicitAudienceLosesEntry(cfg: Config, ix: Index, s: Session, scope: string, reply: Reply, now: int)
    requires Sound(cfg, ix, s) && FairReply(reply) && FairRequest(cfg, None, scope)
    requires !cfg.hasWorker && cfg.useMrrt && !cfg.useRefreshTokensFallback && reply.Granted?
    requires IsToken(s.store, RequestKey(cfg, None, scope))
    requires Truthy(s.store.entries[RequestKey(cfg, None, scope)].body.refreshToken)
    requires CeilingAccepted(Pinned(reply.claims, StoredId(cfg, s.store)))
    requires Scopes.GetMissingScopes(Some(scope), reply.scope, cfg.onlineAccess) != ""
    ensures var (result, s') := GetTokenUsingRefreshToken(cfg, ix, s, None, scope, reply, now);
            result.MissingScopes? && !IsToken(s'.store, RequestKey(cfg, None, scope))
  {
    DefaultEntryIsFound(cfg, ix, s.store, scope, now);
    var (start, s1) := BeginRefresh(cfg, ix, s, None, scope, now);
    ImplicitFallsShort(cfg, StoredId(cfg, s.store), start.cached, scope, reply);
    RefusedExactly(cfg, ix, s, None, scope, reply, now, start, s1);
    RefusedRefreshKeepsTheRest(cfg, ix, s, None, scope, reply, now);
  }

  lemma ImplicitFallsShort(cfg: Config, id: Option<IdTokenEntry>, cached: Option<Body>, scope: string, reply: Reply)
    requires cfg.useMrrt && !cfg.useRefreshTokensFallback && reply.Granted? && CeilingAccepted(Pinned(reply.claims, id))
    requires CachedAudience(cached).Some?
    requires Scopes.GetMissingScopes(Some(scope), reply.scope, cfg.onlineAccess) != ""
    ensures FallsShort(cfg, id, cached, None, scope, reply)
  {
  }

  lemma DefaultEntryIsFound(cfg: Config, ix: Index, st: Store, scope: string, now: int)
    requires OwnIndex(cfg, ix) && StoreSound(cfg, ix, st) && FairRequest(cfg, None, scope)
    requires IsToken(st, RequestKey(cfg, None, scope))
    requires Truthy(st.entries[RequestKey(cfg, None, scope)].body.refreshToken)
    ensures var cached := Get(ix, st, RefreshKey(cfg, None, scope), 0, cfg.useMrrt, false, now).0;
            Truthy(CachedToken(cached)) && cached.value.audience.Some?
  {
    var k := RefreshKey(cfg, None, scope);
    ServeKeepsTokens(ix, st, ToKey(k), now);
    ServedIsWithinGrant(cfg, ix, st, k, ToKey(k), st.entries[ToKey(k)].body);
  }

  /** The reply is for this user, with an acceptable ceiling, but short of scopes sent, and nothing else is tried. */
  predicate FallsShort(
      cfg: Config, id: Option<IdTokenEntry>, cached: Option<Body>, audience: Option<string>, scope: string,
      reply: Reply) {
    && reply.Granted? && CeilingAccepted(Pinned(reply.claims, id)) && !cfg.useRefreshTokensFallback
    && var sent := Scopes.GetScopeToRequest(cfg.useMrrt, audience, scope, CachedAudience(cached), CachedScope(cached));
       Shortfall(cfg, cached, audience, scope, sent, reply.scope) != ""
  }

  lemma RefusedReplyExactly(
      cfg: Config, ix: Index, s: Session, cached: Option<Body>, captured: Option<string>,
      audience: Option<string>, scope: string, reply: Reply, now: int)
    requires Sound(cfg, ix, s) && FairReply(reply)
    ensures FinishRefresh(cfg, ix, s, cached, captured, audience, scope, reply, now).0.MissingScopes?
      <==> FallsShort(cfg, StoredId(cfg, s.store), cached, audience, scope, reply)
  {
    var req := RefreshRequest(cfg, cached, audience, scope).(refreshToken := captured);
    var (result, s1) := RequestToken(cfg, ix, s, req, reply, now);
    IssuedExactly(cfg, ix, s, req, reply, now);
    if result.Issued? {
      IssuedScope(cfg, ix, s, req, reply, now);
    }
    ConcludedExactly(cfg, ix, s1, cached, audience, scope, result);
  }

  lemma IssuedScope(cfg: Config, ix: Index, s: Session, req: TokenRequest, reply: Reply, now: int)
    requires RequestToken(cfg, ix, s, req, reply, now).0.Issued?
    ensures reply.Granted? && RequestToken(cfg, ix, s, req, reply, now).0.scope == reply.scope
  {
  }

  lemma ConcludedExactly(
      cfg: Config, ix: Index, s: Session, cached: Option<Body>, audience: Option<string>, scope: string,
      result: TokenResult)
    ensures var sent :=
              Scopes.GetScopeToRequest(cfg.useMrrt, audience, scope, CachedAudience(cached), CachedScope(cached));
            Conclude(cfg, ix, s, cached, audience, scope, result).0.MissingScopes? <==>
              (&& result.Issued? && !cfg.useRefreshTokensFallback
               && Shortfall(cfg, cached, audience, scope, sent, result.scope) != "")
  {
  }

  /**
   * When an undisturbed refresh ends in missing scopes: exactly when its request was sent, the reply
   * was verified with an acceptable ceiling, and the request went beyond the cached grant and came back
   * short of scopes, with no fallback configured.
   */
  lemma RefusedExactly(
      cfg: Config, ix: Index, s: Session, audience: Option<string>, scope: string, reply: Reply, now: int,
      start: RefreshStart, s1: Session)
    requires Sound(cfg, ix, s) && FairReply(reply)
    requires BeginRefresh(cfg, ix, s, audience, scope, now) == (start, s1)
    ensures GetTokenUsingRefreshToken(cfg, ix, s, audience, scope, reply, now).0.MissingScopes?
      <==> start.Sent? && FallsShort(cfg, StoredId(cfg, s.store), start.cached, audience, scope, reply)
  {
    BeginRefreshEffect(cfg, ix, s, audience, scope, now);
    if start.Sent? {
      RefusedReplyExactly(cfg, ix, s1, start.cached, CachedToken(start.cached), audience, scope, reply, now);
    }
  }

  // ------------------------------------------------------------ the key that stays listed

  /**
   * With a manifest the refused refresh leaves its key behind: still listed, but not stored. It then
   * stands in the way of lookups, as `StoreInvariants.GrantedExactly` says.
   */
  lemma RefusalLeavesDanglingKey(
      cfg: Config, ix: Index, s: Session, cached: Option<Body>, captured: Option<string>,
      audience: Option<string>, scope: string, reply: Reply, now: int)
    requires Sound(cfg, ix, s) && FairReply(reply) && FairRequest(cfg, audience, scope) && ix.ManifestOf?
    requires FinishRefresh(cfg, ix, s, cached, captured, audience, scope, reply, now).0.MissingScopes?
    ensures var st' := FinishRefresh(cfg, ix, s, cached, captured, audience, scope, reply, now).1.store;
            var key := RequestKey(cfg, audience, scope);
            key !in st'.entries && KeyList(ix, st').Some? && key in KeyList(ix, st').value
  {
    var req := RefreshRequest(cfg, cached, audience, scope).(refreshToken := captured);
    var (result, s1) := RequestToken(cfg, ix, s, req, reply, now);
    RequestEffect(cfg, ix, s, req, reply, now);
    assert result.Issued? && Settle(cfg, ix, s1, cached, audience, scope, result).0.MissingScopes?;
    IssuedIsListed(cfg, ix, s, req, reply, now, result, s1);
    DroppedKeyStaysListed(cfg, ix, s1, cached, audience, scope, result);
  }

  lemma IssuedIsListed(
      cfg: Config, ix: Index, s: Session, req: TokenRequest, reply: Reply, now: int, result: TokenResult, s1: Session)
    requires Sound(cfg, ix, s) && FairReply(reply) && FairRequest(cfg, req.audience, req.scope)
    requires RequestToken(cfg, ix, s, req, reply, now) == (result, s1) && result.Issued?
    ensures IsToken(s1.store, RequestKey(cfg, req.audience, req.scope))
    ensures !IsManifestKey(ix, RequestKey(cfg, req.audience, req.scope))
  {
    IssuedIsStored(cfg, ix, s, req, reply, now);
    FairRequestFacts(cfg, ix, req.audience, req.scope);
  }

  lemma DroppedKeyStaysListed(
      cfg: Config, ix: Index, s: Session, cached: Option<Body>, audience: Option<string>, scope: string,
      result: TokenResult)
    requires Sound(cfg, ix, s) && ix.ManifestOf? && result.Issued?
    requires IsToken(s.store, RequestKey(cfg, audience, scope)) && !IsManifestKey(ix, RequestKey(cfg, audience, scope))
    requires Settle(cfg, ix, s, cached, audience, scope, result).0.MissingScopes?
    ensures var st' := Settle(cfg, ix, s, cached, audience, scope, result).1.store;
            var key := RequestKey(cfg, audience, scope);
            key !in st'.entries && KeyList(ix, st').Some? && key in KeyList(ix, st').value
  {
    var s1 := Propagate(cfg, ix, s, CachedToken(cached), result.refreshToken);
    assert KeyList(ix, s1.store) == KeyList(ix, s.store);
    assert KeyList(ix, Delete(s1.store, RequestKey(cfg, audience, scope))) == KeyList(ix, s1.store);
  }

  /**
   * What that means for later requests: while a lookup resolves to a key that is listed but not stored, as
   * the refused refresh leaves one, it returns no access token, and not even after an entry that answers
   * it was saved under a new key.
   */
  lemma DanglingKeyHidesLaterSave(
      ix: Index, st: Store, key: string, k: CacheKey, saved: string, v: Value,
      adj: int, useMrrt: bool, cacheOnly: bool, now: int)
    requires ix.ManifestOf? && Inv(ix, st) && key !in st.entries && KeyList(ix, st).Some?
    requires ToKey(k) !in st.entries && FirstServing(KeyList(ix, st).value, k) == Some(key)
    requires saved !in KeyList(ix, st).value && saved != ToKey(k) && saved != key
    requires !IsManifestKey(ix, saved) && !IsManifestKey(ix, ToKey(k)) && !IsManifestKey(ix, key)
    ensures !Grants(Get(ix, st, k, adj, useMrrt, cacheOnly, now).0)
    ensures !Grants(Get(ix, PutNoted(ix, st, saved, v), k, adj, useMrrt, cacheOnly, now).0)
  {
    var st' := PutNoted(ix, st, saved, v);
    I.ManifestPutEffect(ix.clientId, st, saved, v);
    FirstServingOfLonger(KeyList(ix, st).value, saved, k);
    assert KeyList(ix, st') == Some(KeyList(ix, st).value + [saved]);
    GrantedExactly(ix, st, k, adj, useMrrt, cacheOnly, now);
    GrantedExactly(ix, st', k, adj, useMrrt, cacheOnly, now);
  }

  // ------------------------------------------------------------ the rotation of a refresh that succeeds

  /** The rotation of one entry: when the client offline sent a token and got another, and the entry is concerned. */
  function RotatedBy(cfg: Config, key: string, v: Value, sent: Option<string>, replied: Option<string>): Value
    requires v.Token?
  {
    if !cfg.onlineAccess && Truthy(sent) && Truthy(replied) && FromKey(key).clientId == Some(cfg.clientId)
       && Truthy(v.body.refreshToken) && (cfg.useMrrt || v.body.refreshToken == sent)
    then v.(body := v.body.(refreshToken := replied)) else v
  }

  /** Apart from `key`, the token entries are those, rotated. */
  ghost predicate AllRotated(
      cfg: Config, st: Store, st': Store, key: string, sent: Option<string>, replied: Option<string>)
  {
    && (forall k :: k != key ==> (IsToken(st', k) <==> IsToken(st, k)))
    && (forall k :: k != key && IsToken(st, k) ==> st'.entries[k] == RotatedBy(cfg, k, st.entries[k], sent, replied))
  }

  lemma PropagateRotates(
      cfg: Config, ix: Index, s: Session, previous: Option<string>, next: Option<string>, st: Store, key: string)
    requires Inv(ix, s.store) && SameTokens(cfg, st, s.store, key, None)
    ensures AllRotated(cfg, st, Propagate(cfg, ix, s, previous, next).store, key, previous, next)
  {
  }

  /** A rotation that follows nothing, or is of no token, is none. */
  lemma SameRotation(cfg: Config, st: Store, st': Store, key: string, sent: Option<string>, a: Option<string>,
                     b: Option<string>)
    requires AllRotated(cfg, st, st', key, sent, a) && (cfg.onlineAccess || a == b)
    ensures AllRotated(cfg, st, st', key, sent, b)
  {
  }

  /**
   * A refresh that succeeds rotates exactly the entries concerned, in whatever session its reply finds: offline,
   * the client's entries that hold the token it was sent with get the new one, with multi-resource refresh all
   * that hold any. No other entry but its own changes.
   */
  lemma RefreshRotatesExactly(
      cfg: Config, ix: Index, s: Session, cached: Option<Body>, captured: Option<string>,
      audience: Option<string>, scope: string, reply: Reply, now: int)
    requires Sound(cfg, ix, s) && FairReply(reply) && FairRequest(cfg, audience, scope)
    requires captured.Some? || !cfg.onlineAccess
    requires FinishRefresh(cfg, ix, s, cached, captured, audience, scope, reply, now).0.Refreshed?
    ensures reply.Granted?
    ensures AllRotated(
              cfg, s.store, FinishRefresh(cfg, ix, s, cached, captured, audience, scope, reply, now).1.store,
              RequestKey(cfg, audience, scope), CachedToken(cached), reply.refreshToken)
  {
    var req := RefreshRequest(cfg, cached, audience, scope).(refreshToken := captured);
    var (result, s1) := RequestToken(cfg, ix, s, req, reply, now);
    RefreshedIsIssued(cfg, ix, s1, cached, audience, scope, result);
    IssuedRefresh(cfg, ix, s, req, reply, now);
    IssuedScope(cfg, ix, s, req, reply, now);
    PropagateRotates(
      cfg, ix, s1, CachedToken(cached), result.refreshToken, s.store, RequestKey(cfg, audience, scope));
    if !cfg.onlineAccess {
      IssuedToken(cfg, ix, s, req, reply, now);
    }
    SameRotation(
      cfg, s.store, Conclude(cfg, ix, s1, cached, audience, scope, result).1.store,
      RequestKey(cfg, audience, scope), CachedToken(cached), result.refreshToken, reply.refreshToken);
  }

  lemma RefreshedIsIssued(
      cfg: Config, ix: Index, s: Session, cached: Option<Body>, audience: Option<string>, scope: string,
      result: TokenResult)
    requires Conclude(cfg, ix, s, cached, audience, scope, result).0.Refreshed?
    ensures result.Issued?
    ensures Conclude(cfg, ix, s, cached, audience, scope, result).1
         == Propagate(cfg, ix, s, CachedToken(cached), result.refreshToken)
  {
  }
}
