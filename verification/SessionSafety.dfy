/**
 * Safety of a client's session over whole runs: the session ceiling is pinned and enforced, and the
 * token entries never mix the tokens of two users.
 */
module SessionSafety {
  import opened Prelude
  import opened Text
  import opened CacheKeys
  import opened TokenStore
  import opened StoreInvariants
  import opened ClientSession
  import I = IndexRefinement

  // ------------------------------------------------------------ the invariant

  predicate Mine(cfg: Config, key: string) {
    Includes(key, cfg.clientId)
  }

  function StoredId(cfg: Config, st: Store): Option<IdTokenEntry> {
    var key := IdTokenKey(cfg.clientId);
    if key in st.entries && st.entries[key].IdToken? then Some(st.entries[key].entry) else None
  }

  ghost predicate IsToken(st: Store, key: string) {
    key in st.entries && st.entries[key].Token?
  }

  /** The cache belongs to the client, or lists its keys itself and may be shared with other clients. */
  ghost predicate OwnIndex(cfg: Config, ix: Index) {
    Plain(cfg.clientId) && (ix.ManifestOf? ==> ix.clientId == cfg.clientId)
  }

  /** The body names the audience and scope of the key it is stored under. */
  predicate Described(key: string, v: Value)
    requires v.Token?
  {
    v.body.audience == FromKey(key).audience && v.body.scope == FromKey(key).scope
  }

  ghost predicate StoreSound(cfg: Config, ix: Index, st: Store) {
    && Inv(ix, st)
    && (ix.ManifestOf? ==> forall key :: key in st.entries && !IsManifestKey(ix, key) ==> Mine(cfg, key))
    && (IdTokenKey(cfg.clientId) in st.entries ==> st.entries[IdTokenKey(cfg.clientId)].IdToken?)
    && (forall key :: IsToken(st, key) && Mine(cfg, key) ==>
         && StoredId(cfg, st).Some? && st.entries[key].body.idToken.None? && Described(key, st.entries[key]))
  }

  ghost predicate GoodId(id: IdTokenEntry) {
    id.claims.sub != "" && CeilingAccepted(id.claims)
  }

  /** Token entries come with an id token, whose claims were accepted, and memory never contradicts the cache. */
  ghost predicate Sound(cfg: Config, ix: Index, s: Session) {
    && OwnIndex(cfg, ix) && StoreSound(cfg, ix, s.store)
    && (StoredId(cfg, s.store).Some? ==> GoodId(StoredId(cfg, s.store).value))
    && (s.user.Some? ==> s.user == StoredId(cfg, s.store))
  }

  // -------------------------------------------- operations that only narrow the store

  /** No token entry is new, none regained an embedded id token, and the id token entry is untouched. */
  ghost predicate Narrowed(cfg: Config, ix: Index, st: Store, st': Store) {
    && Inv(ix, st')
    && (ix.ManifestOf? ==> forall key :: key in st'.entries && !IsManifestKey(ix, key) ==> key in st.entries)
    && (forall key :: IsToken(st', key) ==> IsToken(st, key))
    && (forall key :: IsToken(st', key) && st.entries[key].body.idToken.None? ==> st'.entries[key].body.idToken.None?)
    && (forall key :: IsToken(st', key) && Described(key, st.entries[key]) ==> Described(key, st'.entries[key]))
    && (IdTokenKey(cfg.clientId) in st'.entries <==> IdTokenKey(cfg.clientId) in st.entries)
    && (IdTokenKey(cfg.clientId) in st.entries && st.entries[IdTokenKey(cfg.clientId)].IdToken? ==>
         st'.entries[IdTokenKey(cfg.clientId)] == st.entries[IdTokenKey(cfg.clientId)])
  }

  lemma NarrowedStaysSound(cfg: Config, ix: Index, s: Session, s': Session)
    requires Sound(cfg, ix, s) && Narrowed(cfg, ix, s.store, s'.store)
    requires s'.user == s.user || s'.user == StoredId(cfg, s'.store)
    ensures Sound(cfg, ix, s') && StoredId(cfg, s'.store) == StoredId(cfg, s.store)
  {
  }

  lemma IdTokenKeyIsNotManifest(cfg: Config, ix: Index)
    requires OwnIndex(cfg, ix)
    ensures !IsManifestKey(ix, IdTokenKey(cfg.clientId)) && Mine(cfg, IdTokenKey(cfg.clientId))
  {
    I.IdTokenKeyFacts(cfg.clientId);
  }

  lemma GetNarrows(cfg: Config, ix: Index, st: Store, k: CacheKey, adj: int, mrrt: bool, only: bool, now: int)
    requires OwnIndex(cfg, ix) && StoreSound(cfg, ix, st)
    ensures Narrowed(cfg, ix, st, Get(ix, st, k, adj, mrrt, only, now).1)
  {
    var key := GetEffect(ix, st, k, adj, mrrt, only, now);
    var st' := Get(ix, st, k, adj, mrrt, only, now).1;
    GetKeepsInv(ix, st, k, adj, mrrt, only, now);
    IdTokenKeyIsNotManifest(cfg, ix);
    if ServedFrom(st, k, key) {
      TouchedNarrows(cfg, ix, st, key, adj, now, st');
    }
  }

  lemma StripInPlaceNarrows(cfg: Config, ix: Index, st: Store, key: string, expiresAt: int)
    requires StoreSound(cfg, ix, st) && IsToken(st, key)
    requires Inv(ix, Put(st, key, Token(Stripped(st.entries[key].body), expiresAt)))
    ensures Narrowed(cfg, ix, st, Put(st, key, Token(Stripped(st.entries[key].body), expiresAt)))
  {
  }

  /** `st'` lacks `key` and is `st` everywhere else. */
  ghost predicate Lacks(ix: Index, st: Store, key: string, st': Store) {
    && key !in st'.entries
    && (forall k :: k != key && !IsManifestKey(ix, k) ==> (k in st'.entries <==> k in st.entries))
    && (forall k :: k != key && !IsManifestKey(ix, k) && k in st.entries ==> st'.entries[k] == st.entries[k])
  }

  lemma ForgetEffect(ix: Index, st: Store, key: string)
    requires Inv(ix, st) && !IsManifestKey(ix, key)
    ensures Lacks(ix, st, key, ForgetKey(ix, Delete(st, key), key))
  {
    if ix.ManifestOf? {
      I.ManifestDeleteEffect(ix.clientId, st, key);
    }
  }

  lemma LackingNarrows(cfg: Config, ix: Index, st: Store, key: string, st': Store)
    requires OwnIndex(cfg, ix) && StoreSound(cfg, ix, st) && IsToken(st, key)
    requires !IsManifestKey(ix, IdTokenKey(cfg.clientId))
    requires Inv(ix, st') && Lacks(ix, st, key, st')
    ensures Narrowed(cfg, ix, st, st')
  {
  }

  lemma ForgetNarrows(cfg: Config, ix: Index, st: Store, key: string)
    requires OwnIndex(cfg, ix) && StoreSound(cfg, ix, st) && IsToken(st, key)
    requires Inv(ix, ForgetKey(ix, Delete(st, key), key))
    ensures Narrowed(cfg, ix, st, ForgetKey(ix, Delete(st, key), key))
  {
    IdTokenKeyIsNotManifest(cfg, ix);
    ForgetEffect(ix, st, key);
    LackingNarrows(cfg, ix, st, key, ForgetKey(ix, Delete(st, key), key));
  }

  lemma TouchedNarrows(cfg: Config, ix: Index, st: Store, key: string, adj: int, now: int, st': Store)
    requires OwnIndex(cfg, ix) && StoreSound(cfg, ix, st)
    requires IsToken(st, key) && Touched(ix, st, key, adj, now, st') && Inv(ix, st')
    ensures Narrowed(cfg, ix, st, st')
  {
    var v := st.entries[key];
    if Expired(v, adj, now) {
      if Truthy(v.body.refreshToken) {
        StripInPlaceNarrows(cfg, ix, st, key, v.expiresAt);
      } else {
        ForgetNarrows(cfg, ix, st, key);
      }
    }
  }

  /** Only refresh tokens differ. */
  ghost predicate OnlyRefreshTokens(st: Store, st': Store) {
    && st'.entries.Keys == st.entries.Keys
    && forall key :: key in st.entries ==>
         || st'.entries[key] == st.entries[key]
         || (st.entries[key].Token?
             && exists t :: st'.entries[key] == st.entries[key].(body := st.entries[key].body.(refreshToken := t)))
  }

  lemma OnlyRefreshTokensNarrows(cfg: Config, ix: Index, st: Store, st': Store)
    requires StoreSound(cfg, ix, st) && Inv(ix, st') && OnlyRefreshTokens(st, st')
    ensures Narrowed(cfg, ix, st, st')
  {
  }

  lemma UpdateNarrows(cfg: Config, ix: Index, st: Store, previous: string, next: string, mrrt: bool)
    requires OwnIndex(cfg, ix) && StoreSound(cfg, ix, st)
    ensures Narrowed(cfg, ix, st, UpdateEntry(ix, st, previous, next, cfg.clientId, mrrt))
  {
    UpdateEntryKeepsInv(ix, st, previous, next, cfg.clientId, mrrt);
    var st' := UpdateEntry(ix, st, previous, next, cfg.clientId, mrrt);
    assert OnlyRefreshTokens(st, st');
    OnlyRefreshTokensNarrows(cfg, ix, st, st');
  }

  lemma StripNarrows(cfg: Config, ix: Index, st: Store, token: string)
    requires OwnIndex(cfg, ix) && StoreSound(cfg, ix, st)
    ensures Narrowed(cfg, ix, st, StripRefreshToken(ix, st, token))
  {
    StripKeepsInv(ix, st, token);
    assert OnlyRefreshTokens(st, StripRefreshToken(ix, st, token));
    OnlyRefreshTokensNarrows(cfg, ix, st, StripRefreshToken(ix, st, token));
  }

  lemma DeleteNarrows(cfg: Config, ix: Index, st: Store, key: string)
    requires OwnIndex(cfg, ix) && StoreSound(cfg, ix, st) && !IsManifestKey(ix, key) && key != IdTokenKey(cfg.clientId)
    ensures Narrowed(cfg, ix, st, Delete(st, key))
  {
    BareDeleteKeepsInv(ix, st, key);
  }

  // ---------------------------------------------------------------- clear and save

  lemma ClearedSession(cfg: Config, ix: Index, s: Session, id: Option<string>)
    requires Sound(cfg, ix, s) && (id.None? || id == Some(cfg.clientId))
    ensures var s' := ClearLocalSession(ix, s, id);
            && Sound(cfg, ix, s') && StoredId(cfg, s'.store).None?
            && forall key :: key in s'.store.entries ==>
              !Mine(cfg, key) && key in s.store.entries && s'.store.entries[key] == s.store.entries[key]
  {
    ClearEffect(ix, s.store, id);
    ClearKeepsInvExactly(ix, s.store, id);
    IdTokenKeyIsNotManifest(cfg, ix);
  }

  /** The entry that a grant saves: under a key of this client, without an embedded id token. */
  ghost predicate SavableEntry(cfg: Config, ix: Index, e: CacheEntry) {
    && e.clientId == cfg.clientId && Storable(ix, e) && EntryKey(e) != IdTokenKey(cfg.clientId) && e.idToken.None?
    && Described(EntryKey(e), Stamped(e, 0))
  }

  /** `st'` has `v` under `key` and is `st` everywhere else; the manifest is no token entry. */
  ghost predicate Stored(ix: Index, st: Store, key: string, v: Value, st': Store) {
    && key in st'.entries && st'.entries[key] == v
    && (forall k :: k != key && !IsManifestKey(ix, k) ==> (k in st'.entries <==> k in st.entries))
    && (forall k :: k != key && !IsManifestKey(ix, k) && k in st.entries ==> st'.entries[k] == st.entries[k])
    && (forall k :: IsManifestKey(ix, k) ==> !IsToken(st', k))
  }

  lemma NotedEffect(ix: Index, st: Store, key: string, v: Value)
    requires Inv(ix, st) && !IsManifestKey(ix, key) && (v.Token? ==> Restorable(key))
    ensures Inv(ix, PutNoted(ix, st, key, v)) && Stored(ix, st, key, v, PutNoted(ix, st, key, v))
  {
    NotedPutKeepsInv(ix, st, key, v);
    if ix.ManifestOf? {
      I.ManifestPutEffect(ix.clientId, st, key, v);
    }
  }

  lemma SavedSession(cfg: Config, ix: Index, s: Session, idToken: IdTokenEntry, e: CacheEntry, now: int)
    requires Sound(cfg, ix, s) && SavableEntry(cfg, ix, e) && GoodId(idToken)
    ensures var s' := SaveEntry(cfg, ix, s, idToken, e, now);
            && Sound(cfg, ix, s') && StoredId(cfg, s'.store) == Some(idToken)
            && (forall key :: IsToken(s'.store, key) ==> IsToken(s.store, key) || key == EntryKey(e))
            && IsToken(s'.store, EntryKey(e)) && s'.store.entries[EntryKey(e)] == Stamped(e, now)
  {
    var idKey, key := IdTokenKey(cfg.clientId), EntryKey(e);
    IdTokenKeyIsNotManifest(cfg, ix);
    I.EntryKeyNamesClient(cfg.clientId, e.audience, e.scope);
    var st1 := PutNoted(ix, s.store, idKey, IdToken(idToken));
    NotedEffect(ix, s.store, idKey, IdToken(idToken));
    NotedEffect(ix, st1, key, Stamped(e, now));
    SavedIsSound(cfg, ix, s, idToken, key, Stamped(e, now), st1, SaveEntry(cfg, ix, s, idToken, e, now));
  }

  lemma SavedIsSound(
      cfg: Config, ix: Index, s: Session, idToken: IdTokenEntry, key: string, v: Value, st1: Store, s': Session)
    requires Sound(cfg, ix, s) && GoodId(idToken) && s'.user == Some(idToken)
    requires v.Token? && v.body.idToken.None? && Described(key, v) && key != IdTokenKey(cfg.clientId)
    requires !IsManifestKey(ix, key) && !IsManifestKey(ix, IdTokenKey(cfg.clientId))
    requires Mine(cfg, key) && Mine(cfg, IdTokenKey(cfg.clientId)) && Inv(ix, s'.store)
    requires Stored(ix, s.store, IdTokenKey(cfg.clientId), IdToken(idToken), st1)
    requires Stored(ix, st1, key, v, s'.store)
    ensures Sound(cfg, ix, s') && StoredId(cfg, s'.store) == Some(idToken)
    ensures forall k :: IsToken(s'.store, k) ==> IsToken(s.store, k) || k == key
    ensures IsToken(s'.store, key)
  {
  }

  // ------------------------------------------------------------- reading the id token

  /** A key that reads as one of the client's names the client. */
  lemma ReadKeyIsMine(cfg: Config, key: string)
    requires FromKey(key).clientId == Some(cfg.clientId)
    ensures Mine(cfg, key)
  {
    var parts := Split(key, SEP);
    JoinOfSplit(key, SEP);
    var c, rest := parts[1], parts[2..];
    assert parts == [parts[0]] + ([c] + rest);
    JoinCons(parts[0], [c] + rest, SEP);
    if rest == [] {
      assert [c] + rest == [c];
      assert key == (parts[0] + SEP) + c + "";
      IncludesMiddle(parts[0] + SEP, c, "");
    } else {
      JoinCons(c, rest, SEP);
      assert key == (parts[0] + SEP) + c + (SEP + Join(rest, SEP));
      IncludesMiddle(parts[0] + SEP, c, SEP + Join(rest, SEP));
    }
  }

  lemma NothingToServe(ix: Index, st: Store, k: CacheKey, adj: int, only: bool, now: int)
    requires forall key :: !ServedFrom(st, k, key)
    ensures Get(ix, st, k, adj, false, only, now) == (None, st)
  {
    if ToKey(k) in st.entries {
      assert !ServedFrom(st, k, ToKey(k));
    } else if KeyList(ix, st).Some? {
      var keys := KeyList(ix, st).value;
      var found := FirstServing(keys, k);
      FirstServingIsFirst(keys, k);
      if found.Some? && found.value in st.entries {
        assert !ServedFrom(st, k, found.value);
      }
      assert Search(ix, st, keys, k, adj, false, now) == (None, st);
    }
  }

  /** Reading the id token gives the stored one, changes no entry, and leaves memory equal to the cache. */
  lemma SyncReadsStored(cfg: Config, ix: Index, s: Session, now: int)
    requires Sound(cfg, ix, s)
    ensures var (id, s') := SyncUser(cfg, ix, s, now);
            id == StoredId(cfg, s.store) && s'.store == s.store && s'.user == StoredId(cfg, s.store)
  {
    var k := IdTokenLookup(cfg);
    assert OrElse(k.clientId, "") == cfg.clientId;
    if StoredId(cfg, s.store).None? {
      assert IdTokenKey(cfg.clientId) !in s.store.entries && s.user.None?;
      forall key
        ensures !ServedFrom(s.store, k, key)
      {
        if ServedFrom(s.store, k, key) {
          if key == ToKey(k) {
            I.KeyNamesClient(k);
          } else {
            ReadKeyIsMine(cfg, key);
          }
        }
      }
      NothingToServe(ix, s.store, k, 0, false, now);
      assert GetIdToken(ix, s.store, k, now).0 == None;
    } else {
      assert GetIdToken(ix, s.store, k, now).0 == StoredId(cfg, s.store);
    }
    assert GetIdToken(ix, s.store, k, now).1 == s.store;
  }

  lemma SyncedStaysSound(cfg: Config, ix: Index, s: Session, now: int)
    requires Sound(cfg, ix, s)
    ensures Sound(cfg, ix, SyncUser(cfg, ix, s, now).1)
    ensures StoredId(cfg, SyncUser(cfg, ix, s, now).1.store) == StoredId(cfg, s.store)
  {
    SyncReadsStored(cfg, ix, s, now);
  }

  // ------------------------------------------------------------------ token requests

  /** A request for an audience and scope that the key codec can restore. */
  ghost predicate FairRequest(cfg: Config, audience: Option<string>, scope: string) {
    Representable(TokenKey(cfg.clientId, OrElse(audience, Scopes.DEFAULT_AUDIENCE), scope))
  }

  lemma FairRequestFacts(cfg: Config, ix: Index, audience: Option<string>, scope: string)
    requires OwnIndex(cfg, ix) && FairRequest(cfg, audience, scope)
    ensures var k := TokenKey(cfg.clientId, OrElse(audience, Scopes.DEFAULT_AUDIENCE), scope);
            Restorable(ToKey(k)) && !IsManifestKey(ix, ToKey(k)) && ToKey(k) != IdTokenKey(cfg.clientId)
              && FromKey(ToKey(k)) == k
  {
    var k := TokenKey(cfg.clientId, OrElse(audience, Scopes.DEFAULT_AUDIENCE), scope);
    FromKeyInvertsToKeyExactly(k);
    ResolvedKeyIsExact(ToKey(k));
    KindsOfKeysAreDisjoint(cfg.clientId, cfg.clientId, k);
  }

  /** Verification only lets tokens with a subject through. */
  ghost predicate FairReply(reply: Reply) {
    reply.Granted? ==> reply.claims.sub != ""
  }

  /** The session after a request: either an earlier one with fewer tokens, or one with a save on top. */
  lemma BeforeSaveIsSound(cfg: Config, ix: Index, s: Session, req: TokenRequest, reply: Reply, now: int)
    requires Sound(cfg, ix, s) && reply.Granted? && FairReply(reply)
    ensures var (claims, s1) := BeforeSave(cfg, ix, s, req, reply, now);
            var id := StoredId(cfg, s.store);
            && Sound(cfg, ix, s1) && claims.sub == reply.claims.sub
            && (!req.isCode ==> s1.store == s.store && claims == Pinned(reply.claims, id))
            && (req.isCode ==> claims == reply.claims)
            && (req.isCode && id.Some? && id.value.claims.sub != reply.claims.sub ==>
                 StoredId(cfg, s1.store).None? && forall key :: key in s1.store.entries ==> !Mine(cfg, key))
            && (forall key :: IsToken(s1.store, key) ==> IsToken(s.store, key))
            && (req.isCode && (id.None? || id.value.claims.sub == reply.claims.sub) ==> s1.store == s.store)
  {
    SyncReadsStored(cfg, ix, s, now);
    var id := StoredId(cfg, s.store);
    if req.isCode && id.Some? && id.value.claims.sub != reply.claims.sub {
      ClearedSession(cfg, ix, Session(s.store, id), Some(cfg.clientId));
    }
  }

  lemma CarryNarrows(cfg: Config, ix: Index, s: Session, req: TokenRequest, replied: Option<string>, now: int)
    requires Sound(cfg, ix, s)
    ensures var (t, s') := CarryToken(cfg, ix, s, req, replied, now);
            Narrowed(cfg, ix, s.store, s'.store) && s'.user == s.user && Sound(cfg, ix, s')
            && StoredId(cfg, s'.store) == StoredId(cfg, s.store)
  {
    var s' := CarryToken(cfg, ix, s, req, replied, now).1;
    if !Truthy(replied) && cfg.onlineAccess && req.refreshToken.None? {
      var k := TokenKey(cfg.clientId, OrElse(req.audience, Scopes.DEFAULT_AUDIENCE),
        OrElse(req.scopesToRequest, req.scope));
      GetNarrows(cfg, ix, s.store, k, 0, cfg.useMrrt, false, now);
    }
    NarrowedStaysSound(cfg, ix, s, s');
  }

  lemma EntryIsSavable(cfg: Config, ix: Index, req: TokenRequest, reply: Reply, refreshToken: Option<string>)
    requires OwnIndex(cfg, ix) && reply.Granted? && FairRequest(cfg, req.audience, req.scope)
    ensures SavableEntry(cfg, ix, EntryFor(cfg, req, reply, refreshToken))
    ensures EntryKey(EntryFor(cfg, req, reply, refreshToken)) == RequestKey(cfg, req.audience, req.scope)
  {
    FairRequestFacts(cfg, ix, req.audience, req.scope);
  }

  function RequestKey(cfg: Config, audience: Option<string>, scope: string): string {
    ToKey(TokenKey(cfg.clientId, OrElse(audience, Scopes.DEFAULT_AUDIENCE), scope))
  }

  /** The id token entry after a request, in terms of the one before. */
  ghost predicate IdAfter(cfg: Config, st: Store, req: TokenRequest, reply: Reply, st': Store, issued: bool)
    requires reply.Granted?
  {
    var id := StoredId(cfg, st);
    if issued then
      var claims := if req.isCode then reply.claims else Pinned(reply.claims, id);
      StoredId(cfg, st') == Some(IdTokenEntry(reply.idToken, claims))
    else
      StoredId(cfg, st') == if ChangesUser(cfg, st, req, reply) then None else id
  }

  /** Where the token entries after a request come from; `cleared` means that none of the earlier ones is left. */
  ghost predicate TokensAfter(cfg: Config, st: Store, st': Store, key: string, issued: bool, cleared: bool) {
    && (forall k :: IsToken(st', k) ==> IsToken(st, k) || (issued && k == key))
    && (cleared ==> forall k :: IsToken(st', k) && Mine(cfg, k) ==> issued && k == key)
  }

  predicate ChangesUser(cfg: Config, st: Store, req: TokenRequest, reply: Reply) {
    reply.Granted? && req.isCode && StoredId(cfg, st).Some? && StoredId(cfg, st).value.claims.sub != reply.claims.sub
  }

  lemma FinishEffect(
      cfg: Config, ix: Index, s: Session, req: TokenRequest, reply: Reply, claims: Claims, now: int)
    requires Sound(cfg, ix, s) && reply.Granted? && FairRequest(cfg, req.audience, req.scope) && claims.sub != ""
    ensures var (result, s') := FinishRequest(cfg, ix, s, req, reply, claims, now);
            && Sound(cfg, ix, s')
            && StoredId(cfg, s'.store)
                == (if result.Issued? then Some(IdTokenEntry(reply.idToken, claims)) else StoredId(cfg, s.store))
            && (forall k :: IsToken(s'.store, k) ==>
                 IsToken(s.store, k) || (result.Issued? && k == RequestKey(cfg, req.audience, req.scope)))
  {
    var (refreshToken, s1) := CarryToken(cfg, ix, s, req, reply.refreshToken, now);
    CarryNarrows(cfg, ix, s, req, reply.refreshToken, now);
    if CeilingAccepted(claims) {
      EntryIsSavable(cfg, ix, req, reply, refreshToken);
      SavedSession(cfg, ix, s1, IdTokenEntry(reply.idToken, claims), EntryFor(cfg, req, reply, refreshToken), now);
    }
  }

  lemma GrantEffect(cfg: Config, ix: Index, s: Session, req: TokenRequest, reply: Reply, now: int)
    requires Sound(cfg, ix, s) && reply.Granted? && FairReply(reply) && FairRequest(cfg, req.audience, req.scope)
    ensures var (result, s') := RequestToken(cfg, ix, s, req, reply, now);
            && Sound(cfg, ix, s')
            && IdAfter(cfg, s.store, req, reply, s'.store, result.Issued?)
            && TokensAfter(cfg, s.store, s'.store, RequestKey(cfg, req.audience, req.scope), result.Issued?,
              ChangesUser(cfg, s.store, req, reply))
  {
    var (claims, s1) := BeforeSave(cfg, ix, s, req, reply, now);
    BeforeSaveIsSound(cfg, ix, s, req, reply, now);
    FinishEffect(cfg, ix, s1, req, reply, claims, now);
  }

  lemma RequestEffect(cfg: Config, ix: Index, s: Session, req: TokenRequest, reply: Reply, now: int)
    requires Sound(cfg, ix, s) && FairReply(reply) && FairRequest(cfg, req.audience, req.scope)
    ensures var (result, s') := RequestToken(cfg, ix, s, req, reply, now);
            && Sound(cfg, ix, s')
            && (if reply.Granted? then IdAfter(cfg, s.store, req, reply, s'.store, result.Issued?)
              else s' == s && !result.Issued?)
            && TokensAfter(cfg, s.store, s'.store, RequestKey(cfg, req.audience, req.scope), result.Issued?,
              ChangesUser(cfg, s.store, req, reply))
  {
    if reply.Granted? {
      GrantEffect(cfg, ix, s, req, reply, now);
    }
  }

  /** A reply is saved exactly when it is verified and its ceiling, as it would be stored, is acceptable. */
  lemma IssuedExactly(cfg: Config, ix: Index, s: Session, req: TokenRequest, reply: Reply, now: int)
    requires Sound(cfg, ix, s) && FairReply(reply)
    ensures RequestToken(cfg, ix, s, req, reply, now).0.Issued?
      <==> reply.Granted? && CeilingAccepted(if req.isCode then reply.claims
        else Pinned(reply.claims, StoredId(cfg, s.store)))
  {
    if reply.Granted? {
      BeforeSaveIsSound(cfg, ix, s, req, reply, now);
    }
  }

  /** A saved reply is stored under the request's own key. */
  lemma IssuedIsStored(cfg: Config, ix: Index, s: Session, req: TokenRequest, reply: Reply, now: int)
    requires Sound(cfg, ix, s) && FairReply(reply) && FairRequest(cfg, req.audience, req.scope)
    requires RequestToken(cfg, ix, s, req, reply, now).0.Issued?
    ensures var (result, s') := RequestToken(cfg, ix, s, req, reply, now);
            var key := RequestKey(cfg, req.audience, req.scope);
            && IsToken(s'.store, key)
            && s'.store.entries[key] == Stamped(EntryFor(cfg, req, reply, result.refreshToken), now)
  {
    var (claims, s1) := BeforeSave(cfg, ix, s, req, reply, now);
    BeforeSaveIsSound(cfg, ix, s, req, reply, now);
    var (refreshToken, s2) := CarryToken(cfg, ix, s1, req, reply.refreshToken, now);
    CarryNarrows(cfg, ix, s1, req, reply.refreshToken, now);
    EntryIsSavable(cfg, ix, req, reply, refreshToken);
    SavedSession(cfg, ix, s2, IdTokenEntry(reply.idToken, claims), EntryFor(cfg, req, reply, refreshToken), now);
  }

  // ------------------------------------------------------------------- refresh

  /** The id token entry after a refresh: pinned to the old ceiling, gone for a blocked user, or the same. */
  ghost predicate IdAfterRefresh(cfg: Config, st: Store, reply: Reply, st': Store, issued: bool) {
    var id, id' := StoredId(cfg, st), StoredId(cfg, st');
    if issued then reply.Granted? && id' == Some(IdTokenEntry(reply.idToken, Pinned(reply.claims, id)))
    else id' == if reply == Refused(UserBlocked) then None else id
  }

  lemma PropagateEffect(cfg: Config, ix: Index, s: Session, previous: Option<string>, next: Option<string>)
    requires Sound(cfg, ix, s)
    ensures var s' := Propagate(cfg, ix, s, previous, next);
            && Sound(cfg, ix, s') && StoredId(cfg, s'.store) == StoredId(cfg, s.store)
            && (forall k :: IsToken(s'.store, k) ==> IsToken(s.store, k))
  {
    if !cfg.onlineAccess && Truthy(next) && Truthy(previous) {
      UpdateNarrows(cfg, ix, s.store, previous.value, next.value, cfg.useMrrt);
      NarrowedStaysSound(cfg, ix, s, Propagate(cfg, ix, s, previous, next));
    }
  }

  lemma DropEffect(cfg: Config, ix: Index, s: Session, audience: Option<string>, scope: string)
    requires Sound(cfg, ix, s) && FairRequest(cfg, audience, scope)
    ensures var s' := s.(store := Delete(s.store, RequestKey(cfg, audience, scope)));
            && Sound(cfg, ix, s') && StoredId(cfg, s'.store) == StoredId(cfg, s.store)
            && (forall k :: IsToken(s'.store, k) ==> IsToken(s.store, k))
  {
    FairRequestFacts(cfg, ix, audience, scope);
    DeleteNarrows(cfg, ix, s.store, RequestKey(cfg, audience, scope));
    NarrowedStaysSound(cfg, ix, s, s.(store := Delete(s.store, RequestKey(cfg, audience, scope))));
  }

  lemma SettleEffect(
      cfg: Config, ix: Index, s: Session, cached: Option<Body>, audience: Option<string>, scope: string,
      result: TokenResult)
    requires Sound(cfg, ix, s) && result.Issued? && FairRequest(cfg, audience, scope)
    ensures var (r, s') := Settle(cfg, ix, s, cached, audience, scope, result);
            && Sound(cfg, ix, s') && StoredId(cfg, s'.store) == StoredId(cfg, s.store)
            && (forall k :: IsToken(s'.store, k) ==> IsToken(s.store, k))
  {
    var s1 := Propagate(cfg, ix, s, CachedToken(cached), result.refreshToken);
    PropagateEffect(cfg, ix, s, CachedToken(cached), result.refreshToken);
    DropEffect(cfg, ix, s1, audience, scope);
  }

  lemma FailureEffect(cfg: Config, ix: Index, s: Session, result: TokenResult)
    requires Sound(cfg, ix, s)
    ensures var (r, s') := RefreshFailure(cfg, ix, s, result);
            && Sound(cfg, ix, s')
            && StoredId(cfg, s'.store) == (if result == Rejected(UserBlocked) then None else StoredId(cfg, s.store))
            && (forall k :: IsToken(s'.store, k) ==> IsToken(s.store, k))
  {
    if result == Rejected(UserBlocked) {
      ClearedSession(cfg, ix, s, Some(cfg.clientId));
    }
  }

  /** Looking up the token to refresh with keeps the session sound and gives no token. */
  lemma BeginRefreshEffect(
      cfg: Config, ix: Index, s: Session, audience: Option<string>, scope: string, now: int)
    requires Sound(cfg, ix, s)
    ensures var s' := BeginRefresh(cfg, ix, s, audience, scope, now).1;
            && Sound(cfg, ix, s') && StoredId(cfg, s'.store) == StoredId(cfg, s.store)
            && (forall k :: IsToken(s'.store, k) ==> IsToken(s.store, k))
  {
    GetNarrows(cfg, ix, s.store, RefreshKey(cfg, audience, scope), 0, cfg.useMrrt, false, now);
    NarrowedStaysSound(cfg, ix, s, BeginRefresh(cfg, ix, s, audience, scope, now).1);
  }

  /** Whether the reply to a refresh gets as far as being saved. */
  function RefreshIssues(
      cfg: Config, ix: Index, s: Session, cached: Option<Body>, captured: Option<string>,
      audience: Option<string>, scope: string, reply: Reply, now: int): bool
  {
    RequestToken(cfg, ix, s, RefreshRequest(cfg, cached, audience, scope).(refreshToken := captured), reply, now)
      .0.Issued?
  }

  /**
   * The reply to a refresh, in any session it may find: whatever was looked up when the refresh began,
   * and whatever happened since.
   */
  lemma FinishRefreshEffect(
      cfg: Config, ix: Index, s: Session, cached: Option<Body>, captured: Option<string>,
      audience: Option<string>, scope: string, reply: Reply, now: int)
    requires Sound(cfg, ix, s) && FairReply(reply) && FairRequest(cfg, audience, scope)
    ensures var (r, s') := FinishRefresh(cfg, ix, s, cached, captured, audience, scope, reply, now);
            var issued := RefreshIssues(cfg, ix, s, cached, captured, audience, scope, reply, now);
            && Sound(cfg, ix, s') && IdAfterRefresh(cfg, s.store, reply, s'.store, issued)
            && TokensAfter(cfg, s.store, s'.store, RequestKey(cfg, audience, scope), issued, false)
  {
    var req := RefreshRequest(cfg, cached, audience, scope).(refreshToken := captured);
    var (result, s1) := RequestToken(cfg, ix, s, req, reply, now);
    RequestEffect(cfg, ix, s, req, reply, now);
    RejectionIsRefusal(cfg, ix, s, req, reply, now);
    ConcludeEffect(cfg, ix, s1, cached, audience, scope, result);
    ConcludedRefresh(cfg, s.store, req, reply, s1.store, result,
      Conclude(cfg, ix, s1, cached, audience, scope, result).1.store);
  }

  lemma RejectionIsRefusal(cfg: Config, ix: Index, s: Session, req: TokenRequest, reply: Reply, now: int)
    ensures RequestToken(cfg, ix, s, req, reply, now).0 == Rejected(UserBlocked) <==> reply == Refused(UserBlocked)
  {
  }

  lemma ConcludeEffect(
      cfg: Config, ix: Index, s: Session, cached: Option<Body>, audience: Option<string>, scope: string,
      result: TokenResult)
    requires Sound(cfg, ix, s) && FairRequest(cfg, audience, scope)
    ensures var (r, s') := Conclude(cfg, ix, s, cached, audience, scope, result);
            && Sound(cfg, ix, s')
            && StoredId(cfg, s'.store) == (if result == Rejected(UserBlocked) then None else StoredId(cfg, s.store))
            && (forall k :: IsToken(s'.store, k) ==> IsToken(s.store, k))
  {
    if result.Issued? {
      SettleEffect(cfg, ix, s, cached, audience, scope, result);
    } else {
      FailureEffect(cfg, ix, s, result);
    }
  }

  /** The request and what follows it, put together. */
  lemma ConcludedRefresh(
      cfg: Config, st: Store, req: TokenRequest, reply: Reply, st1: Store, result: TokenResult, st': Store)
    requires !req.isCode && (result == Rejected(UserBlocked) <==> reply == Refused(UserBlocked))
    requires if reply.Granted? then IdAfter(cfg, st, req, reply, st1, result.Issued?) else st1 == st && !result.Issued?
    requires forall k :: IsToken(st1, k) ==>
      IsToken(st, k) || (result.Issued? && k == RequestKey(cfg, req.audience, req.scope))
    requires StoredId(cfg, st') == (if result == Rejected(UserBlocked) then None else StoredId(cfg, st1))
    requires forall k :: IsToken(st', k) ==> IsToken(st1, k)
    ensures IdAfterRefresh(cfg, st, reply, st', result.Issued?)
    ensures TokensAfter(cfg, st, st', RequestKey(cfg, req.audience, req.scope), result.Issued?, false)
  {
  }

  // -------------------------------------------------------------------- ceiling

  lemma CheckCeilingEffect(cfg: Config, ix: Index, s: Session, now: int)
    requires Sound(cfg, ix, s)
    ensures var (reached, s') := CheckCeiling(cfg, ix, s, now);
            var id := StoredId(cfg, s.store);
            && Sound(cfg, ix, s')
            && (reached <==> id.Some? && PastCeiling(id.value.claims.sessionExpiry, now))
            && (if reached then
                  && StoredId(cfg, s'.store).None?
                  && forall key :: key in s'.store.entries ==> !Mine(cfg, key) && key in s.store.entries
                else s' == s)
            && (forall k :: IsToken(s'.store, k) ==> IsToken(s.store, k))
  {
    ClearedSession(cfg, ix, s, Some(cfg.clientId));
  }

  /**
   * Within 30 seconds of the ceiling, or past it, a token request ends there and then, whatever its
   * cache mode: it neither answers from the cache nor goes on to fetch. No user is handed out either,
   * and every entry that names the client is gone. Before that the check changes nothing.
   */
  lemma CeilingIsEnforced(cfg: Config, ix: Index, s: Session, k: CacheKey, mode: CacheMode, now: int)
    requires Sound(cfg, ix, s)
    requires StoredId(cfg, s.store).Some? && StoredId(cfg, s.store).value.claims.sessionExpiry.Seconds?
    ensures var ceiling := StoredId(cfg, s.store).value.claims.sessionExpiry.at;
            var (outcome, s1) := GetTokenBeforeLock(cfg, ix, s, k, mode, now);
            var (user, s2) := GetUser(cfg, ix, s, now);
            if FloorSeconds(now) >= ceiling - SESSION_EXPIRY_LEEWAY_SECONDS then
              && outcome == Ended && user.None?
              && (forall key :: key in s1.store.entries ==> !Mine(cfg, key))
              && (forall key :: key in s2.store.entries ==> !Mine(cfg, key))
            else
              && outcome != Ended && StoredId(cfg, s1.store) == StoredId(cfg, s.store)
              && user == StoredId(cfg, s.store) && s2.store == s.store
  {
    CheckCeilingEffect(cfg, ix, s, now);
    SyncReadsStored(cfg, ix, s, now);
    EntryReadEffect(cfg, ix, s, k, mode.CacheOnly?, now);
  }

  /** Without a stored ceiling no request ends early. */
  lemma NoCeilingNeverEnds(cfg: Config, ix: Index, s: Session, k: CacheKey, mode: CacheMode, now: int)
    requires Sound(cfg, ix, s)
    requires StoredId(cfg, s.store).None? || StoredId(cfg, s.store).value.claims.sessionExpiry.NoCeiling?
    ensures GetTokenBeforeLock(cfg, ix, s, k, mode, now).0 != Ended
  {
    CheckCeilingEffect(cfg, ix, s, now);
  }

  lemma EntryReadEffect(cfg: Config, ix: Index, s: Session, k: CacheKey, cacheOnly: bool, now: int)
    requires Sound(cfg, ix, s)
    ensures var (token, s') := GetEntryFromCache(cfg, ix, s, k, cacheOnly, now);
            && Sound(cfg, ix, s') && StoredId(cfg, s'.store) == StoredId(cfg, s.store)
            && (forall key :: IsToken(s'.store, key) ==> IsToken(s.store, key))
  {
    var (body, st') := Get(ix, s.store, k, TOKEN_EXPIRY_LEEWAY_SECONDS, cfg.useMrrt, cacheOnly, now);
    GetNarrows(cfg, ix, s.store, k, TOKEN_EXPIRY_LEEWAY_SECONDS, cfg.useMrrt, cacheOnly, now);
    EntryRead(cfg, ix, s, s.(store := st'), GetEntryFromCache(cfg, ix, s, k, cacheOnly, now).1, now);
  }

  lemma EntryRead(cfg: Config, ix: Index, s: Session, s1: Session, s': Session, now: int)
    requires Sound(cfg, ix, s) && Narrowed(cfg, ix, s.store, s1.store) && s1.user == s.user
    requires s' == s1 || s' == SyncUser(cfg, ix, s1, now).1
    ensures Sound(cfg, ix, s') && StoredId(cfg, s'.store) == StoredId(cfg, s.store)
    ensures forall key :: IsToken(s'.store, key) ==> IsToken(s.store, key)
  {
    NarrowedStaysSound(cfg, ix, s, s1);
    SyncReadsStored(cfg, ix, s1, now);
  }
}
