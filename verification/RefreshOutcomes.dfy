/**
 * What a refresh answers and which refresh token it leaves, for any reply and whatever session it finds.
 * Every outcome is given by the reply, the looked-up entry and the configuration alone.
 */
module RefreshOutcomes {
  import opened Prelude
  import opened CacheKeys
  import opened TokenStore
  import opened StoreInvariants
  import opened ClientSession
  import opened SessionSafety
  import Scopes

  // ------------------------------------------------------------ the start

  /**
   * A refresh is sent with the token that its lookup finds. Without one it is sent only if there is a worker,
   * and otherwise ends at once, in the iframe if that is the fallback.
   */
  lemma RefreshStartsExactly(
      cfg: Config, ix: Index, s: Session, audience: Option<string>, scope: string, now: int, token: string)
    ensures var start := BeginRefresh(cfg, ix, s, audience, scope, now).0;
            var k := TokenKey(cfg.clientId, if Truthy(audience) then audience.value else "default", scope);
            && ((start.Sent? && Truthy(CachedToken(start.cached)) && CachedToken(start.cached).value == token)
                <==> TokenFound(ix, s.store, k, cfg.useMrrt, token))
            && (start.Sent? <==> cfg.hasWorker || exists t :: TokenFound(ix, s.store, k, cfg.useMrrt, t))
            && (!start.Sent? ==>
                 start == NotSent(if cfg.useRefreshTokensFallback then UseIframe else NoRefreshToken))
  {
    var k := RefreshKey(cfg, audience, scope);
    forall t
      ensures var r := Get(ix, s.store, k, 0, cfg.useMrrt, false, now).0;
              TokenFound(ix, s.store, k, cfg.useMrrt, t)
              <==> r.Some? && Truthy(r.value.refreshToken) && r.value.refreshToken.value == t
    {
      TokenFoundExactly(ix, s.store, k, 0, cfg.useMrrt, now, t);
    }
  }

  // ------------------------------------------------------------ the reply

  /** The ceiling a reply would be saved with, the stored one outliving any other, can be saved. */
  predicate CanSave(isCode: bool, id: Option<IdTokenEntry>, claims: Claims) {
    var ceiling :=
      if !isCode && id.Some? && id.value.claims.sessionExpiry != NoCeiling then id.value.claims.sessionExpiry
      else claims.sessionExpiry;
    ceiling == NoCeiling
    || (ceiling.Seconds? && ceiling.at < 10_000_000_000 && claims.iat.Some? && claims.iat.value < ceiling.at)
  }

  /** A reply is saved if and only if it is verified and that ceiling can be saved. */
  lemma SavedExactly(cfg: Config, ix: Index, s: Session, req: TokenRequest, reply: Reply, now: int)
    requires Sound(cfg, ix, s) && FairReply(reply)
    ensures RequestToken(cfg, ix, s, req, reply, now).0.Issued?
      <==> reply.Granted? && CanSave(req.isCode, StoredId(cfg, s.store), reply.claims)
  {
    IssuedExactly(cfg, ix, s, req, reply, now);
  }

  /** With multi-resource refresh, the request goes beyond the looked-up entry: another audience, or more scopes. */
  predicate GoesBeyond(cfg: Config, cached: Option<Body>, audience: Option<string>, scope: string) {
    cfg.useMrrt &&
    (CachedAudience(cached) != audience
     || exists w :: w in Scopes.Listed(Some(scope)) && w !in Scopes.Listed(CachedScope(cached)))
  }

  /** The scopes asked for that did not come back, by name. */
  function NotGranted(cfg: Config, scope: string, reply: Reply): string
    requires reply.Granted?
  {
    Scopes.GetMissingScopes(Some(scope), reply.scope, cfg.onlineAccess)
  }

  /** A request that goes beyond the looked-up entry is sent with its own scopes. */
  lemma ShortfallExactly(cfg: Config, cached: Option<Body>, audience: Option<string>, scope: string, reply: Reply)
    requires reply.Granted?
    ensures var sent :=
              Scopes.GetScopeToRequest(cfg.useMrrt, audience, scope, CachedAudience(cached), CachedScope(cached));
            Shortfall(cfg, cached, audience, scope, sent, reply.scope)
            == if GoesBeyond(cfg, cached, audience, scope) then NotGranted(cfg, scope, reply) else ""
  {
  }

  /** The reply is verified and can be saved in this session. */
  predicate Usable(cfg: Config, s: Session, reply: Reply) {
    reply.Granted? && CanSave(false, StoredId(cfg, s.store), reply.claims)
  }

  predicate ComesShort(cfg: Config, cached: Option<Body>, audience: Option<string>, scope: string, reply: Reply)
    requires reply.Granted?
  {
    GoesBeyond(cfg, cached, audience, scope) && NotGranted(cfg, scope, reply) != ""
  }

  /** The refresh token was refused as missing or invalid. */
  predicate TokenRefused(reply: Reply) {
    reply == Refused(MissingRefreshToken) || reply == Refused(InvalidRefreshToken)
  }

  /**
   * The outcome of a refresh, for every reply: the access token of the reply, and no other, when that can be
   * saved and nothing asked for is missing; the iframe, if it is the fallback, when scopes are missing or the
   * refresh token was refused; the names of the missing scopes when there is no fallback; else failure.
   */
  lemma RefreshAnswersExactly(
      cfg: Config, ix: Index, s: Session, cached: Option<Body>, captured: Option<string>,
      audience: Option<string>, scope: string, reply: Reply, now: int)
    requires Sound(cfg, ix, s) && FairReply(reply)
    ensures FinishRefresh(cfg, ix, s, cached, captured, audience, scope, reply, now).0
         == if Usable(cfg, s, reply) && !ComesShort(cfg, cached, audience, scope, reply) then
              Refreshed(reply.accessToken)
            else if Usable(cfg, s, reply) && !cfg.useRefreshTokensFallback then
              MissingScopes(NotGranted(cfg, scope, reply))
            else if Usable(cfg, s, reply) || (TokenRefused(reply) && cfg.useRefreshTokensFallback) then UseIframe
            else RefreshFailed
  {
    var req := RefreshRequest(cfg, cached, audience, scope).(refreshToken := captured);
    var result := RequestToken(cfg, ix, s, req, reply, now).0;
    SavedExactly(cfg, ix, s, req, reply, now);
    if reply.Granted? {
      ShortfallExactly(cfg, cached, audience, scope, reply);
    }
    if result.Issued? {
      IssuedCarriesReply(cfg, ix, s, req, reply, now);
    } else {
      NotIssued(cfg, ix, s, req, reply, now);
    }
  }

  lemma IssuedCarriesReply(cfg: Config, ix: Index, s: Session, req: TokenRequest, reply: Reply, now: int)
    requires RequestToken(cfg, ix, s, req, reply, now).0.Issued?
    ensures reply.Granted?
    ensures var result := RequestToken(cfg, ix, s, req, reply, now).0;
            result.accessToken == reply.accessToken && result.scope == reply.scope
  {
  }

  lemma NotIssued(cfg: Config, ix: Index, s: Session, req: TokenRequest, reply: Reply, now: int)
    requires !RequestToken(cfg, ix, s, req, reply, now).0.Issued?
    ensures RequestToken(cfg, ix, s, req, reply, now).0
         == match reply
            case Refused(why) => Rejected(why)
            case Unverified => VerificationFailed
            case Granted(_, _, _, _, _, _, _) => InvalidCeiling
  {
  }

  // ------------------------------------------------------------ the refresh token kept

  /** The cache when a reply is saved: without the client's entries after another user's login. */
  function AtSave(cfg: Config, ix: Index, s: Session, req: TokenRequest, reply: Reply): Store {
    if ChangesUser(cfg, s.store, req, reply) then Clear(ix, s.store, Some(cfg.clientId)) else s.store
  }

  lemma BeforeSaveStore(cfg: Config, ix: Index, s: Session, req: TokenRequest, reply: Reply, now: int)
    requires Sound(cfg, ix, s) && reply.Granted? && FairReply(reply)
    ensures BeforeSave(cfg, ix, s, req, reply, now).1.store == AtSave(cfg, ix, s, req, reply)
  {
    SyncReadsStored(cfg, ix, s, now);
  }

  /** The refresh token of an issued request, in terms of the reply, the request and the cache. */
  ghost predicate KeptToken(
      cfg: Config, ix: Index, st: Store, req: TokenRequest, replied: Option<string>, kept: Option<string>)
  {
    var audience := if Truthy(req.audience) then req.audience.value else "default";
    var scope := if Truthy(req.scopesToRequest) then req.scopesToRequest.value else req.scope;
    if Truthy(replied) then kept == replied
    else if !cfg.onlineAccess then !Truthy(kept)
    else if req.refreshToken.Some? then kept == req.refreshToken
    else forall t :: (Truthy(kept) && kept.value == t)
           <==> TokenFound(ix, st, TokenKey(cfg.clientId, audience, scope), cfg.useMrrt, t)
  }

  lemma CarriedExactly(
      cfg: Config, ix: Index, s: Session, req: TokenRequest, replied: Option<string>, now: int)
    ensures KeptToken(cfg, ix, s.store, req, replied, CarryToken(cfg, ix, s, req, replied, now).0)
  {
    var k := TokenKey(cfg.clientId, OrElse(req.audience, "default"), OrElse(req.scopesToRequest, req.scope));
    forall t
      ensures var r := Get(ix, s.store, k, 0, cfg.useMrrt, false, now).0;
              TokenFound(ix, s.store, k, cfg.useMrrt, t)
              <==> r.Some? && Truthy(r.value.refreshToken) && r.value.refreshToken.value == t
    {
      TokenFoundExactly(ix, s.store, k, 0, cfg.useMrrt, now, t);
    }
  }

  lemma IssuedKeepsToken(cfg: Config, ix: Index, s: Session, req: TokenRequest, reply: Reply, now: int)
    requires Sound(cfg, ix, s) && FairReply(reply) && RequestToken(cfg, ix, s, req, reply, now).0.Issued?
    ensures reply.Granted?
    ensures KeptToken(cfg, ix, AtSave(cfg, ix, s, req, reply), req, reply.refreshToken,
                      RequestToken(cfg, ix, s, req, reply, now).0.refreshToken)
  {
    var s1 := BeforeSave(cfg, ix, s, req, reply, now).1;
    BeforeSaveStore(cfg, ix, s, req, reply, now);
    CarriedExactly(cfg, ix, s1, req, reply.refreshToken, now);
    IssuedCarries(cfg, ix, s, req, reply, now, s1);
  }

  lemma IssuedCarries(cfg: Config, ix: Index, s: Session, req: TokenRequest, reply: Reply, now: int, s1: Session)
    requires RequestToken(cfg, ix, s, req, reply, now).0.Issued? && reply.Granted?
    requires s1 == BeforeSave(cfg, ix, s, req, reply, now).1
    ensures RequestToken(cfg, ix, s, req, reply, now).0.refreshToken
         == CarryToken(cfg, ix, s1, req, reply.refreshToken, now).0
  {
  }

  lemma StampedTokens(cfg: Config, req: TokenRequest, reply: Reply, refreshToken: Option<string>, now: int)
    requires reply.Granted?
    ensures var v := Stamped(EntryFor(cfg, req, reply, refreshToken), now);
            v.Token? && v.body.accessToken == Some(reply.accessToken) && v.body.refreshToken == refreshToken
  {
  }

  /**
   * The refresh token held under the request's key once its reply was saved: the one of the reply. If the
   * reply has none, offline there is none; online it is the one the request was sent with, or else the one
   * that a lookup for the request finds.
   */
  lemma SavedTokenExactly(cfg: Config, ix: Index, s: Session, req: TokenRequest, reply: Reply, now: int)
    requires Sound(cfg, ix, s) && FairReply(reply) && FairRequest(cfg, req.audience, req.scope)
    requires RequestToken(cfg, ix, s, req, reply, now).0.Issued?
    ensures reply.Granted?
    ensures var st', key := RequestToken(cfg, ix, s, req, reply, now).1.store, RequestKey(cfg, req.audience, req.scope);
            IsToken(st', key) && st'.entries[key].body.accessToken == Some(reply.accessToken)
            && KeptToken(cfg, ix, AtSave(cfg, ix, s, req, reply), req, reply.refreshToken,
                         st'.entries[key].body.refreshToken)
  {
    IssuedKeepsToken(cfg, ix, s, req, reply, now);
    IssuedIsStored(cfg, ix, s, req, reply, now);
    StampedTokens(cfg, req, reply, RequestToken(cfg, ix, s, req, reply, now).0.refreshToken, now);
  }

  /** An online refresh whose reply has no refresh token keeps the one it was sent with. */
  lemma OnlineTokenIsKept(
      cfg: Config, ix: Index, s: Session, cached: Option<Body>, captured: Option<string>,
      audience: Option<string>, scope: string, reply: Reply, now: int)
    requires Sound(cfg, ix, s) && FairReply(reply) && FairRequest(cfg, audience, scope)
    requires cfg.onlineAccess && captured.Some? && Usable(cfg, s, reply) && !Truthy(reply.refreshToken)
    requires !ComesShort(cfg, cached, audience, scope, reply)
    ensures var st' := FinishRefresh(cfg, ix, s, cached, captured, audience, scope, reply, now).1.store;
            var key := RequestKey(cfg, audience, scope);
            IsToken(st', key) && st'.entries[key].body.refreshToken == captured
  {
    var req := RefreshRequest(cfg, cached, audience, scope).(refreshToken := captured);
    SavedExactly(cfg, ix, s, req, reply, now);
    SavedTokenExactly(cfg, ix, s, req, reply, now);
    RefreshAnswersExactly(cfg, ix, s, cached, captured, audience, scope, reply, now);
  }
}
