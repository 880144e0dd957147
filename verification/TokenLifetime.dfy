/**
 * How long a saved access token is found. From the save of a reply on, every lookup for the same request
 * returns its token until the token is about to expire, unless one of a few events comes in between.
 */
module TokenLifetime {
  import opened Prelude
  import opened CacheKeys
  import opened TokenStore
  import opened StoreInvariants
  import opened ClientSession
  import opened SessionSafety
  import opened SessionRuns
  import Scopes
  import U = UpscopeRollback

  /** The cache holds this access token, with this expiry, under the key. */
  ghost predicate Held(st: Store, key: string, token: string, expiresAt: int) {
    IsToken(st, key) && st.entries[key].body.accessToken == Some(token) && st.entries[key].expiresAt == expiresAt
  }

  /** More than the client's leeway of 60 seconds is left, counted in whole seconds. */
  predicate Lasts(expiresAt: int, now: int) {
    expiresAt - TOKEN_EXPIRY_LEEWAY_SECONDS >= FloorSeconds(now)
  }

  /** A saved reply is held under the key of its request, for as long as the server said. */
  lemma SavedIsHeld(cfg: Config, ix: Index, s: Session, req: TokenRequest, reply: Reply, now: int)
    requires Sound(cfg, ix, s) && FairReply(reply) && FairRequest(cfg, req.audience, req.scope)
    requires RequestToken(cfg, ix, s, req, reply, now).0.Issued?
    ensures reply.Granted?
    ensures Held(RequestToken(cfg, ix, s, req, reply, now).1.store, RequestKey(cfg, req.audience, req.scope),
                 reply.accessToken, FloorSeconds(now) + reply.expiresIn)
  {
    IssuedIsStored(cfg, ix, s, req, reply, now);
  }

  /** What is held and lasts is what a token request finds, and finding it changes no entry. */
  lemma HeldIsFound(
      cfg: Config, ix: Index, s: Session, audience: Option<string>, scope: string, cacheOnly: bool,
      token: string, expiresAt: int, now: int)
    requires Sound(cfg, ix, s) && token != "" && Lasts(expiresAt, now)
    requires Held(s.store, RequestKey(cfg, audience, scope), token, expiresAt)
    ensures var (found, s') := GetEntryFromCache(cfg, ix, s, RefreshKey(cfg, audience, scope), cacheOnly, now);
            found == Some(token) && s'.store == s.store
  {
    U.OwnKeyIsMine(cfg, audience, scope);
    SyncReadsStored(cfg, ix, s, now);
  }

  // ------------------------------------------------------------ what ends a held token

  /** The reply is saved under this very key, in place of the token held there. */
  predicate Replaces(cfg: Config, ix: Index, sys: System, key: string, ev: Event) {
    Issues(cfg, ix, sys, ev) && SavedKey(cfg, sys, ev) == key
  }

  /**
   * The only events that can end a held token: one that ends the session, another user's login, a reply
   * saved under the same key, and a lookup at a time when the token no longer lasts. Revocations and
   * rotations are not among them.
   */
  predicate MayEnd(cfg: Config, ix: Index, sys: System, key: string, expiresAt: int, ev: Event) {
    || EndsSession(cfg, sys, ev)
    || NewUser(cfg, sys, ev)
    || Replaces(cfg, ix, sys, key, ev)
    || (!ev.Revoked? && !ev.Logout? && !Lasts(expiresAt, ev.now))
  }

  /** A lookup leaves alone what does not expire by its own measure. */
  lemma GetKeepsHeld(
      ix: Index, st: Store, k: CacheKey, adj: int, mrrt: bool, only: bool, now: int,
      key: string, token: string, expiresAt: int)
    requires Inv(ix, st) && !IsManifestKey(ix, key) && Held(st, key, token, expiresAt)
    requires expiresAt - adj >= FloorSeconds(now)
    ensures Held(Get(ix, st, k, adj, mrrt, only, now).1, key, token, expiresAt)
  {
    var hit := GetEffect(ix, st, k, adj, mrrt, only, now);
    if ServedFrom(st, k, hit) {
      TouchedKeepsHeld(ix, st, hit, adj, now, Get(ix, st, k, adj, mrrt, only, now).1, key, token, expiresAt);
    }
  }

  lemma TouchedKeepsHeld(
      ix: Index, st: Store, hit: string, adj: int, now: int, st': Store, key: string, token: string, expiresAt: int)
    requires Inv(ix, st) && IsToken(st, hit) && Touched(ix, st, hit, adj, now, st')
    requires !IsManifestKey(ix, key) && Held(st, key, token, expiresAt) && expiresAt - adj >= FloorSeconds(now)
    ensures Held(st', key, token, expiresAt)
  {
    TouchedKeepsInv(ix, st, hit, adj, now, st');
  }

  lemma ReadKeepsHeld(
      cfg: Config, ix: Index, s: Session, k: CacheKey, cacheOnly: bool, now: int, key: string, token: string,
      expiresAt: int)
    requires Sound(cfg, ix, s) && !IsManifestKey(ix, key) && Held(s.store, key, token, expiresAt)
    requires Lasts(expiresAt, now)
    ensures Held(GetEntryFromCache(cfg, ix, s, k, cacheOnly, now).1.store, key, token, expiresAt)
  {
    var st' := Get(ix, s.store, k, TOKEN_EXPIRY_LEEWAY_SECONDS, cfg.useMrrt, cacheOnly, now).1;
    GetKeepsHeld(ix, s.store, k, TOKEN_EXPIRY_LEEWAY_SECONDS, cfg.useMrrt, cacheOnly, now, key, token, expiresAt);
    GetNarrows(cfg, ix, s.store, k, TOKEN_EXPIRY_LEEWAY_SECONDS, cfg.useMrrt, cacheOnly, now);
    SyncAfterLookup(cfg, ix, s, s.(store := st'), now);
  }

  lemma SyncAfterLookup(cfg: Config, ix: Index, s: Session, s1: Session, now: int)
    requires Sound(cfg, ix, s) && Narrowed(cfg, ix, s.store, s1.store) && s1.user == s.user
    ensures SyncUser(cfg, ix, s1, now).1.store == s1.store
  {
    NarrowedStaysSound(cfg, ix, s, s1);
    SyncReadsStored(cfg, ix, s1, now);
  }

  lemma CarryKeepsHeld(
      cfg: Config, ix: Index, s: Session, req: TokenRequest, replied: Option<string>, now: int,
      key: string, token: string, expiresAt: int)
    requires Inv(ix, s.store) && !IsManifestKey(ix, key) && Held(s.store, key, token, expiresAt)
    requires Lasts(expiresAt, now)
    ensures Held(CarryToken(cfg, ix, s, req, replied, now).1.store, key, token, expiresAt)
  {
    if !Truthy(replied) && cfg.onlineAccess && req.refreshToken.None? {
      var k := TokenKey(cfg.clientId, OrElse(req.audience, Scopes.DEFAULT_AUDIENCE),
        OrElse(req.scopesToRequest, req.scope));
      GetKeepsHeld(ix, s.store, k, 0, cfg.useMrrt, false, now, key, token, expiresAt);
    }
  }

  /** Saving under another key. */
  lemma SaveKeepsHeld(
      cfg: Config, ix: Index, s: Session, idToken: IdTokenEntry, e: CacheEntry, now: int,
      key: string, token: string, expiresAt: int)
    requires Sound(cfg, ix, s) && SavableEntry(cfg, ix, e) && key != EntryKey(e) && Held(s.store, key, token, expiresAt)
    ensures Held(SaveEntry(cfg, ix, s, idToken, e, now).store, key, token, expiresAt)
  {
    U.SaveEntryKeepsTokens(cfg, ix, s, idToken, e, now);
  }

  lemma RequestKeepsHeld(
      cfg: Config, ix: Index, s: Session, req: TokenRequest, reply: Reply, now: int,
      key: string, token: string, expiresAt: int)
    requires Sound(cfg, ix, s) && FairReply(reply) && FairRequest(cfg, req.audience, req.scope)
    requires !IsManifestKey(ix, key) && Held(s.store, key, token, expiresAt) && Lasts(expiresAt, now)
    requires !ChangesUser(cfg, s.store, req, reply)
    requires RequestToken(cfg, ix, s, req, reply, now).0.Issued? ==> key != RequestKey(cfg, req.audience, req.scope)
    ensures Held(RequestToken(cfg, ix, s, req, reply, now).1.store, key, token, expiresAt)
  {
    if reply.Granted? {
      var (claims, s1) := BeforeSave(cfg, ix, s, req, reply, now);
      BeforeSaveIsSound(cfg, ix, s, req, reply, now);
      assert s1.store == s.store;
      FinishKeepsHeld(cfg, ix, s1, req, reply, claims, now, key, token, expiresAt);
    }
  }

  lemma FinishKeepsHeld(
      cfg: Config, ix: Index, s: Session, req: TokenRequest, reply: Reply, claims: Claims, now: int,
      key: string, token: string, expiresAt: int)
    requires Sound(cfg, ix, s) && reply.Granted? && FairRequest(cfg, req.audience, req.scope)
    requires !IsManifestKey(ix, key) && Held(s.store, key, token, expiresAt) && Lasts(expiresAt, now)
    requires CeilingAccepted(claims) ==> key != RequestKey(cfg, req.audience, req.scope)
    ensures Held(FinishRequest(cfg, ix, s, req, reply, claims, now).1.store, key, token, expiresAt)
  {
    var (carried, s2) := CarryToken(cfg, ix, s, req, reply.refreshToken, now);
    CarryKeepsHeld(cfg, ix, s, req, reply.refreshToken, now, key, token, expiresAt);
    CarryNarrows(cfg, ix, s, req, reply.refreshToken, now);
    if CeilingAccepted(claims) {
      EntryIsSavable(cfg, ix, req, reply, carried);
      var e := EntryFor(cfg, req, reply, carried);
      SaveKeepsHeld(cfg, ix, s2, IdTokenEntry(reply.idToken, claims), e, now, key, token, expiresAt);
    }
  }

  lemma ConcludeKeepsHeld(
      cfg: Config, ix: Index, s: Session, cached: Option<Body>, audience: Option<string>, scope: string,
      result: TokenResult, key: string, token: string, expiresAt: int)
    requires Held(s.store, key, token, expiresAt) && result != Rejected(UserBlocked)
    requires result.Issued? ==> key != RequestKey(cfg, audience, scope)
    ensures Held(Conclude(cfg, ix, s, cached, audience, scope, result).1.store, key, token, expiresAt)
  {
    if result.Issued? {
      var s1 := Propagate(cfg, ix, s, CachedToken(cached), result.refreshToken);
      assert Held(s1.store, key, token, expiresAt);
    }
  }

  lemma AnswerKeepsHeld(cfg: Config, ix: Index, sys: System, ev: Event, key: string, token: string, expiresAt: int)
    requires SoundSystem(cfg, ix, sys) && Fair(cfg, ix, ev) && Handles(sys, ev)
    requires !IsManifestKey(ix, key) && Held(sys.session.store, key, token, expiresAt)
    requires !MayEnd(cfg, ix, sys, key, expiresAt, ev)
    ensures Held(NextSession(cfg, ix, sys, ev).store, key, token, expiresAt)
  {
    var f, s := sys.flights[ev.id], sys.session;
    if f.grant.RefreshGrant? {
      var cached := AsRead(f.cached, ev.live);
      var req := RefreshRequest(cfg, cached, f.audience, f.scope).(refreshToken := CachedToken(f.cached));
      var (result, s1) := RequestToken(cfg, ix, s, req, ev.reply, ev.now);
      RequestKeepsHeld(cfg, ix, s, req, ev.reply, ev.now, key, token, expiresAt);
      RejectionIsRefusal(cfg, ix, s, req, ev.reply, ev.now);
      ConcludeKeepsHeld(cfg, ix, s1, cached, f.audience, f.scope, result, key, token, expiresAt);
    } else {
      RequestKeepsHeld(cfg, ix, s, RequestOf(f), ev.reply, ev.now, key, token, expiresAt);
    }
  }

  lemma ReadingKeepsHeld(cfg: Config, ix: Index, sys: System, ev: Event, key: string, token: string, expiresAt: int)
    requires SoundSystem(cfg, ix, sys) && (ev.ReadToken? || ev.Recheck? || ev.ReadUser?)
    requires !IsManifestKey(ix, key) && Held(sys.session.store, key, token, expiresAt)
    requires !MayEnd(cfg, ix, sys, key, expiresAt, ev)
    ensures Held(NextSession(cfg, ix, sys, ev).store, key, token, expiresAt)
  {
    CheckCeilingEffect(cfg, ix, sys.session, ev.now);
    if ev.ReadToken? {
      ReadKeepsHeld(cfg, ix, sys.session, ev.k, ev.mode.CacheOnly?, ev.now, key, token, expiresAt);
    } else if ev.Recheck? {
      ReadKeepsHeld(cfg, ix, sys.session, ev.k, false, ev.now, key, token, expiresAt);
    } else {
      SyncReadsStored(cfg, ix, sys.session, ev.now);
    }
  }

  /** Nothing but these events ends a held token. */
  lemma StepKeepsHeld(cfg: Config, ix: Index, sys: System, ev: Event, key: string, token: string, expiresAt: int)
    requires SoundSystem(cfg, ix, sys) && Fair(cfg, ix, ev)
    requires !IsManifestKey(ix, key) && Held(sys.session.store, key, token, expiresAt)
    requires !MayEnd(cfg, ix, sys, key, expiresAt, ev)
    ensures Held(NextSession(cfg, ix, sys, ev).store, key, token, expiresAt)
  {
    if Handles(sys, ev) {
      AnswerKeepsHeld(cfg, ix, sys, ev, key, token, expiresAt);
    } else if ev.ReadToken? || ev.Recheck? || ev.ReadUser? {
      ReadingKeepsHeld(cfg, ix, sys, ev, key, token, expiresAt);
    } else if ev.Begin? {
      var k := RefreshKey(cfg, ev.audience, ev.scope);
      GetKeepsHeld(ix, sys.session.store, k, 0, cfg.useMrrt, false, ev.now, key, token, expiresAt);
    }
  }

  /** The first three of them do end it: the session's end and another user leave none, a save replaces it. */
  lemma TheseEndIt(cfg: Config, ix: Index, sys: System, ev: Event, key: string)
    requires SoundSystem(cfg, ix, sys) && Fair(cfg, ix, ev) && Mine(cfg, key) && StoredId(cfg, sys.session.store).Some?
    ensures EndsSession(cfg, sys, ev) ==> !IsToken(NextSession(cfg, ix, sys, ev).store, key)
    ensures NewUser(cfg, sys, ev) && !Replaces(cfg, ix, sys, key, ev) ==>
              !IsToken(NextSession(cfg, ix, sys, ev).store, key)
  {
    StepEffect(cfg, ix, sys, ev);
    IdTokenLostExactly(cfg, ix, sys, ev);
  }

  /** No event of the run may end the token. */
  ghost predicate LeavesAlone(cfg: Config, ix: Index, sys: System, evs: seq<Event>, key: string, expiresAt: int)
    decreases |evs|
  {
    evs != [] ==>
      && Fair(cfg, ix, evs[0]) && !MayEnd(cfg, ix, sys, key, expiresAt, evs[0])
      && LeavesAlone(cfg, ix, Next(cfg, ix, sys, evs[0]), evs[1..], key, expiresAt)
  }

  /** A held token stays held through every run that has none of those events. */
  lemma {:induction false} HeldStaysHeld(
      cfg: Config, ix: Index, sys: System, evs: seq<Event>, key: string, token: string, expiresAt: int)
    requires SoundSystem(cfg, ix, sys) && LeavesAlone(cfg, ix, sys, evs, key, expiresAt)
    requires !IsManifestKey(ix, key) && Held(sys.session.store, key, token, expiresAt)
    ensures var sys' := After(cfg, ix, sys, evs);
            SoundSystem(cfg, ix, sys') && Held(sys'.session.store, key, token, expiresAt)
    decreases |evs|
  {
    if evs != [] {
      StepEffect(cfg, ix, sys, evs[0]);
      StepKeepsHeld(cfg, ix, sys, evs[0], key, token, expiresAt);
      HeldStaysHeld(cfg, ix, Next(cfg, ix, sys, evs[0]), evs[1..], key, token, expiresAt);
    }
  }
}
