/**
 * The client's own revocation among other operations. It captures the refresh tokens of an audience once
 * and then revokes them one request at a time, while logins, refreshes, reads and logouts go on. This
 * module says what that achieves: everything, as long as no reply is handled in between, and otherwise not.
 * It also says what a revocation with nothing in between does to the whole session.
 */
module RevocationRuns {
  import opened Prelude
  import opened CacheKeys
  import opened TokenStore
  import opened StoreInvariants
  import opened ClientSession
  import opened SessionSafety
  import opened SessionRuns
  import Revocation
  import Scopes
  import RefreshOutcomes
  import SessionOverlap
  import TokenLifetime

  /** The entries of the audience hold no other refresh tokens than these. */
  ghost predicate HoldsOnly(cfg: Config, st: Store, api: string, tokens: set<string>) {
    forall key ::
      IsToken(st, key) && ForAudience(key, api, cfg.clientId) && Truthy(st.entries[key].body.refreshToken) ==>
      st.entries[key].body.refreshToken.value in tokens
  }

  /** What a revocation captures is all that its audience holds. */
  lemma CapturedIsAll(cfg: Config, ix: Index, st: Store, api: string)
    requires Inv(ix, st)
    ensures HoldsOnly(cfg, st, api, set t | t in RefreshTokensByAudience(ix, st, api, cfg.clientId))
  {
    var tokens := RefreshTokensByAudience(ix, st, api, cfg.clientId);
    forall key | IsToken(st, key) && ForAudience(key, api, cfg.clientId) && Truthy(st.entries[key].body.refreshToken)
      ensures st.entries[key].body.refreshToken.value in tokens
    {
      assert !IsManifestKey(ix, key);
      Revocation.HeldTokensAreListed(st, KeyList(ix, st).value, api, cfg.clientId, key);
    }
  }

  // ------------------------------------------------------------ one answer

  /** An accepted answer takes the revoked token, and nothing else, from every entry that then holds it. */
  lemma RevokedExactly(cfg: Config, ix: Index, sys: System, token: string)
    requires SoundSystem(cfg, ix, sys)
    ensures var st, st' := sys.session.store, Next(cfg, ix, sys, Revoked(token)).session.store;
            && st'.entries.Keys == st.entries.Keys
            && (forall key :: IsToken(st', key) <==> IsToken(st, key))
            && (forall key :: IsToken(st, key) ==> st'.entries[key] == WithoutToken(st.entries[key], token))
  {
    Revocation.StripOnePointwise(ix, sys.session.store, token);
  }

  /** So it clears the audience if and only if that holds no other token by then. */
  lemma AnswerClearsExactly(cfg: Config, ix: Index, sys: System, api: string, token: string)
    requires SoundSystem(cfg, ix, sys)
    ensures HoldsOnly(cfg, Next(cfg, ix, sys, Revoked(token)).session.store, api, {})
      <==> HoldsOnly(cfg, sys.session.store, api, {token})
  {
    RevokedExactly(cfg, ix, sys, token);
    var st, st' := sys.session.store, Next(cfg, ix, sys, Revoked(token)).session.store;
    if HoldsOnly(cfg, st', api, {}) {
      forall key | IsToken(st, key) && ForAudience(key, api, cfg.clientId) && Truthy(st.entries[key].body.refreshToken)
        ensures st.entries[key].body.refreshToken.value in {token}
      {
        assert IsToken(st', key);
      }
    }
  }

  // ------------------------------------------------------------ whole runs without replies

  /** No entry has a refresh token that it did not have before. */
  ghost predicate NoneGained(st: Store, st': Store) {
    forall key :: IsToken(st', key) ==>
      IsToken(st, key) && st'.entries[key].body.refreshToken == st.entries[key].body.refreshToken
  }

  lemma LookupGainsNone(ix: Index, st: Store, k: CacheKey, adj: int, mrrt: bool, only: bool, now: int)
    requires Inv(ix, st)
    ensures NoneGained(st, Get(ix, st, k, adj, mrrt, only, now).1)
  {
    var hit := GetEffect(ix, st, k, adj, mrrt, only, now);
    if ServedFrom(st, k, hit) {
      TouchGainsNone(ix, st, hit, adj, now, Get(ix, st, k, adj, mrrt, only, now).1);
    }
  }

  lemma TouchGainsNone(ix: Index, st: Store, hit: string, adj: int, now: int, st': Store)
    requires Inv(ix, st) && IsToken(st, hit) && Touched(ix, st, hit, adj, now, st')
    ensures NoneGained(st, st')
  {
    TouchedKeepsInv(ix, st, hit, adj, now, st');
  }

  lemma EntryReadGainsNone(cfg: Config, ix: Index, s: Session, k: CacheKey, cacheOnly: bool, now: int)
    requires Sound(cfg, ix, s)
    ensures NoneGained(s.store, GetEntryFromCache(cfg, ix, s, k, cacheOnly, now).1.store)
  {
    LookupGainsNone(ix, s.store, k, TOKEN_EXPIRY_LEEWAY_SECONDS, cfg.useMrrt, cacheOnly, now);
    EntryReadLooksUp(cfg, ix, s, k, cacheOnly, now);
  }

  /** Reading an entry does no more to the cache than its lookup. */
  lemma EntryReadLooksUp(cfg: Config, ix: Index, s: Session, k: CacheKey, cacheOnly: bool, now: int)
    requires Sound(cfg, ix, s)
    ensures GetEntryFromCache(cfg, ix, s, k, cacheOnly, now).1.store
         == Get(ix, s.store, k, TOKEN_EXPIRY_LEEWAY_SECONDS, cfg.useMrrt, cacheOnly, now).1
  {
    var st' := Get(ix, s.store, k, TOKEN_EXPIRY_LEEWAY_SECONDS, cfg.useMrrt, cacheOnly, now).1;
    GetNarrows(cfg, ix, s.store, k, TOKEN_EXPIRY_LEEWAY_SECONDS, cfg.useMrrt, cacheOnly, now);
    TokenLifetime.SyncAfterLookup(cfg, ix, s, s.(store := st'), now);
  }

  lemma ClearGainsNone(cfg: Config, ix: Index, s: Session, id: Option<string>)
    requires Sound(cfg, ix, s) && (id.None? || id == Some(cfg.clientId))
    ensures NoneGained(s.store, ClearLocalSession(ix, s, id).store)
  {
    ClearedSession(cfg, ix, s, id);
  }

  lemma TokenReadGainsNone(cfg: Config, ix: Index, s: Session, k: CacheKey, mode: CacheMode, now: int)
    requires Sound(cfg, ix, s)
    ensures NoneGained(s.store, GetTokenBeforeLock(cfg, ix, s, k, mode, now).1.store)
  {
    ClearGainsNone(cfg, ix, s, Some(cfg.clientId));
    EntryReadGainsNone(cfg, ix, s, k, mode.CacheOnly?, now);
  }

  lemma UserReadGainsNone(cfg: Config, ix: Index, s: Session, now: int)
    requires Sound(cfg, ix, s)
    ensures NoneGained(s.store, GetUser(cfg, ix, s, now).1.store)
  {
    ClearGainsNone(cfg, ix, s, Some(cfg.clientId));
    SyncReadsStored(cfg, ix, s, now);
  }

  lemma StepGainsNone(cfg: Config, ix: Index, sys: System, ev: Event)
    requires SoundSystem(cfg, ix, sys) && Fair(cfg, ix, ev) && !Handles(sys, ev) && !ev.Revoked?
    ensures NoneGained(sys.session.store, NextSession(cfg, ix, sys, ev).store)
  {
    match ev
    case Begin(_, _, audience, scope, now) =>
      LookupGainsNone(ix, sys.session.store, RefreshKey(cfg, audience, scope), 0, cfg.useMrrt, false, now);
    case Recheck(k, now) => EntryReadGainsNone(cfg, ix, sys.session, k, false, now);
    case Logout(client) => ClearGainsNone(cfg, ix, sys.session, client);
    case ReadToken(k, mode, now) => TokenReadGainsNone(cfg, ix, sys.session, k, mode, now);
    case ReadUser(now) => UserReadGainsNone(cfg, ix, sys.session, now);
    case _ =>
  }

  /** What is left to revoke after an event. */
  function Left(todo: set<string>, ev: Event): set<string> {
    if ev.Revoked? then todo - {ev.token} else todo
  }

  lemma StepHoldsOnly(cfg: Config, ix: Index, sys: System, ev: Event, api: string, todo: set<string>)
    requires SoundSystem(cfg, ix, sys) && Fair(cfg, ix, ev) && !Handles(sys, ev)
    requires HoldsOnly(cfg, sys.session.store, api, todo)
    ensures HoldsOnly(cfg, Next(cfg, ix, sys, ev).session.store, api, Left(todo, ev))
  {
    if ev.Revoked? {
      RevokedExactly(cfg, ix, sys, ev.token);
    } else {
      StepGainsNone(cfg, ix, sys, ev);
    }
  }

  function RevokedIn(evs: seq<Event>): set<string> {
    set ev | ev in evs && ev.Revoked? :: ev.token
  }

  /** No reply is handled in the run. */
  ghost predicate NoReplies(cfg: Config, ix: Index, sys: System, evs: seq<Event>)
    decreases |evs|
  {
    evs != [] ==>
      Fair(cfg, ix, evs[0]) && !Handles(sys, evs[0]) && NoReplies(cfg, ix, Next(cfg, ix, sys, evs[0]), evs[1..])
  }

  lemma {:induction false} RunHoldsOnly(
      cfg: Config, ix: Index, sys: System, evs: seq<Event>, api: string, todo: set<string>)
    requires SoundSystem(cfg, ix, sys) && NoReplies(cfg, ix, sys, evs) && HoldsOnly(cfg, sys.session.store, api, todo)
    ensures HoldsOnly(cfg, After(cfg, ix, sys, evs).session.store, api, todo - RevokedIn(evs))
    decreases |evs|
  {
    if evs == [] {
      assert todo - RevokedIn(evs) == todo;
    } else {
      var sys1 := Next(cfg, ix, sys, evs[0]);
      StepEffect(cfg, ix, sys, evs[0]);
      StepHoldsOnly(cfg, ix, sys, evs[0], api, todo);
      RunHoldsOnly(cfg, ix, sys1, evs[1..], api, Left(todo, evs[0]));
      LeftOfRun(evs, todo);
    }
  }

  lemma LeftOfRun(evs: seq<Event>, todo: set<string>)
    requires evs != []
    ensures Left(todo, evs[0]) - RevokedIn(evs[1..]) == todo - RevokedIn(evs)
  {
    assert evs == [evs[0]] + evs[1..];
    assert forall ev :: ev in evs <==> ev == evs[0] || ev in evs[1..];
  }

  /**
   * A revocation that was accepted for all the tokens it captured leaves its audience without refresh
   * tokens, whatever lookups, reads, logouts and new requests come between its own requests, as long as no
   * reply is handled.
   */
  lemma RevocationClearsAudience(cfg: Config, ix: Index, sys: System, evs: seq<Event>, api: string)
    requires SoundSystem(cfg, ix, sys) && NoReplies(cfg, ix, sys, evs)
    requires forall t :: t in RefreshTokensByAudience(ix, sys.session.store, api, cfg.clientId) ==> t in RevokedIn(evs)
    ensures HoldsOnly(cfg, After(cfg, ix, sys, evs).session.store, api, {})
  {
    var tokens := set t | t in RefreshTokensByAudience(ix, sys.session.store, api, cfg.clientId);
    CapturedIsAll(cfg, ix, sys.session.store, api);
    RunHoldsOnly(cfg, ix, sys, evs, api, tokens);
    assert tokens - RevokedIn(evs) == {};
  }

  // ------------------------------------------------------------ a reply in between

  /** The answers to a revocation's requests, all accepted. */
  function AllRevoked(tokens: seq<string>): seq<Event> {
    if tokens == [] then [] else [Revoked(tokens[0])] + AllRevoked(tokens[1..])
  }

  lemma OtherTokenStaysOnce(cfg: Config, ix: Index, sys: System, revoked: string, key: string, token: string)
    requires SoundSystem(cfg, ix, sys) && token != revoked
    requires HoldsUnder(sys.session.store, key, token)
    ensures SoundSystem(cfg, ix, Next(cfg, ix, sys, Revoked(revoked)))
    ensures HoldsUnder(Next(cfg, ix, sys, Revoked(revoked)).session.store, key, token)
  {
    StepEffect(cfg, ix, sys, Revoked(revoked));
    RevokedExactly(cfg, ix, sys, revoked);
  }

  lemma {:induction false} OtherTokenStays(
      cfg: Config, ix: Index, sys: System, tokens: seq<string>, key: string, token: string)
    requires SoundSystem(cfg, ix, sys) && token !in tokens
    requires HoldsUnder(sys.session.store, key, token)
    ensures HoldsUnder(After(cfg, ix, sys, AllRevoked(tokens)).session.store, key, token)
    decreases |tokens|
  {
    if tokens != [] {
      assert AllRevoked(tokens)[1..] == AllRevoked(tokens[1..]);
      OtherTokenStaysOnce(cfg, ix, sys, tokens[0], key, token);
      OtherTokenStays(cfg, ix, Next(cfg, ix, sys, Revoked(tokens[0])), tokens[1..], key, token);
    }
  }

  /** The reply is saved, and if it answers a refresh, not rolled back. */
  predicate Keeps(cfg: Config, ix: Index, sys: System, ev: Event) {
    Issues(cfg, ix, sys, ev) && ev.reply.Granted? &&
    var f := sys.flights[ev.id];
    f.grant.RefreshGrant? ==>
      !FinishRefresh(cfg, ix, sys.session, AsRead(f.cached, ev.live), CachedToken(f.cached),
                     f.audience, f.scope, ev.reply, ev.now).0.MissingScopes?
  }

  predicate HoldsUnder(st: Store, key: string, token: string) {
    key in st.entries && st.entries[key].Token? && st.entries[key].body.refreshToken == Some(token)
  }

  lemma SavedHoldsReplied(cfg: Config, ix: Index, s: Session, req: TokenRequest, reply: Reply, now: int)
    requires Sound(cfg, ix, s) && FairReply(reply) && FairRequest(cfg, req.audience, req.scope)
    requires RequestToken(cfg, ix, s, req, reply, now).0.Issued? && reply.Granted? && Truthy(reply.refreshToken)
    ensures HoldsUnder(RequestToken(cfg, ix, s, req, reply, now).1.store,
                       RequestKey(cfg, req.audience, req.scope), reply.refreshToken.value)
  {
    IssuedIsStored(cfg, ix, s, req, reply, now);
    SessionOverlap.CarriedIsReplied(cfg, ix, s, req, reply, now);
    RefreshOutcomes.StampedTokens(cfg, req, reply, reply.refreshToken, now);
  }

  lemma ConcludeKeepsReplied(
      cfg: Config, ix: Index, s: Session, cached: Option<Body>, audience: Option<string>, scope: string,
      result: TokenResult, key: string, token: string)
    requires result.Issued? && result.refreshToken == Some(token) && HoldsUnder(s.store, key, token)
    requires !Conclude(cfg, ix, s, cached, audience, scope, result).0.MissingScopes?
    ensures HoldsUnder(Conclude(cfg, ix, s, cached, audience, scope, result).1.store, key, token)
  {
    var s1 := Propagate(cfg, ix, s, CachedToken(cached), result.refreshToken);
    assert HoldsUnder(s1.store, key, token);
  }

  /** A reply with a refresh token that is kept stores it under its key. */
  lemma ReplyIsStored(cfg: Config, ix: Index, sys: System, ev: Event)
    requires SoundSystem(cfg, ix, sys) && Fair(cfg, ix, ev) && Keeps(cfg, ix, sys, ev)
    requires Truthy(ev.reply.refreshToken)
    ensures HoldsUnder(Next(cfg, ix, sys, ev).session.store, SavedKey(cfg, sys, ev), ev.reply.refreshToken.value)
  {
    var f, s := sys.flights[ev.id], sys.session;
    if f.grant.RefreshGrant? {
      var cached := AsRead(f.cached, ev.live);
      var req := RefreshRequest(cfg, cached, f.audience, f.scope).(refreshToken := CachedToken(f.cached));
      var (result, s1) := RequestToken(cfg, ix, s, req, ev.reply, ev.now);
      SavedHoldsReplied(cfg, ix, s, req, ev.reply, ev.now);
      SessionOverlap.CarriedIsReplied(cfg, ix, s, req, ev.reply, ev.now);
      ConcludeKeepsReplied(
        cfg, ix, s1, cached, f.audience, f.scope, result, SavedKey(cfg, sys, ev), ev.reply.refreshToken.value);
    } else {
      SavedHoldsReplied(cfg, ix, s, RequestOf(f), ev.reply, ev.now);
    }
  }

  function SavedAudience(sys: System, ev: Event): string {
    if Handles(sys, ev) then OrElse(sys.flights[ev.id].audience, Scopes.DEFAULT_AUDIENCE) else ""
  }

  lemma SavedKeyIsForAudience(cfg: Config, ix: Index, sys: System, ev: Event)
    requires SoundSystem(cfg, ix, sys) && Handles(sys, ev)
    ensures ForAudience(SavedKey(cfg, sys, ev), SavedAudience(sys, ev), cfg.clientId)
  {
    FairRequestFacts(cfg, ix, sys.flights[ev.id].audience, sys.flights[ev.id].scope);
  }

  /**
   * Without that condition it need not: when a reply for the audience brings a new refresh token after the
   * capture, as a rotation does, then although all captured tokens are revoked and every request is
   * accepted, the audience still holds the new one.
   */
  lemma ReplyOutrunsRevocation(cfg: Config, ix: Index, sys: System, ev: Event)
    requires SoundSystem(cfg, ix, sys) && Fair(cfg, ix, ev) && Keeps(cfg, ix, sys, ev)
    requires Truthy(ev.reply.refreshToken)
    requires var api := SavedAudience(sys, ev);
             ev.reply.refreshToken.value !in RefreshTokensByAudience(ix, sys.session.store, api, cfg.clientId)
    ensures var api := SavedAudience(sys, ev);
            var captured := RefreshTokensByAudience(ix, sys.session.store, api, cfg.clientId);
            var sys' := After(cfg, ix, sys, [ev] + AllRevoked(captured));
            !HoldsOnly(cfg, sys'.session.store, api, {})
  {
    var api, key := SavedAudience(sys, ev), SavedKey(cfg, sys, ev);
    var captured := RefreshTokensByAudience(ix, sys.session.store, api, cfg.clientId);
    ReplyIsStored(cfg, ix, sys, ev);
    StepEffect(cfg, ix, sys, ev);
    OtherTokenStays(cfg, ix, Next(cfg, ix, sys, ev), captured, key, ev.reply.refreshToken.value);
    SavedKeyIsForAudience(cfg, ix, sys, ev);
    assert ([ev] + AllRevoked(captured))[1..] == AllRevoked(captured);
  }

  // ------------------------------------------------------------ a whole revocation, undisturbed

  /** The audience to revoke: the one of the call, else the configured one, else the default. */
  function RevokedAudience(cfg: Config, audience: Option<string>): string {
    if Truthy(audience) then audience.value else if Truthy(cfg.audience) then cfg.audience.value else "default"
  }

  /** What a stored value is without these refresh tokens: an entry that holds one keeps everything else. */
  function Bereft(v: Value, tokens: seq<string>): Value {
    if v.Token? && Truthy(v.body.refreshToken) && v.body.refreshToken.value in tokens then
      v.(body := v.body.(refreshToken := None))
    else v
  }

  /** Exactly these refresh tokens are gone from the entries, and nothing else changed. */
  ghost predicate TokensGone(st: Store, st': Store, tokens: seq<string>) {
    && st'.order == st.order && st'.entries.Keys == st.entries.Keys
    && forall key :: key in st.entries ==> st'.entries[key] == Bereft(st.entries[key], tokens)
  }

  /** Nothing of the client is left, in memory or in the cache; entries of others that are, lack the tokens. */
  ghost predicate Emptied(cfg: Config, st: Store, s': Session, tokens: seq<string>) {
    && s'.user == None && StoredId(cfg, s'.store) == None
    && forall key :: key in s'.store.entries ==>
         !Mine(cfg, key) && key in st.entries && s'.store.entries[key] == Bereft(st.entries[key], tokens)
  }

  /** How many of the tokens are revoked before a request fails. */
  ghost predicate RevokedFirst(tokens: seq<string>, outcomes: seq<bool>, n: nat) {
    && n <= |tokens| && n <= |outcomes| && (forall i :: 0 <= i < n ==> outcomes[i])
    && (n < |tokens| ==> n == |outcomes| || !outcomes[n])
  }

  lemma AcceptedAreGone(cfg: Config, ix: Index, st: Store, api: string, outcomes: seq<bool>, n: nat)
    requires Inv(ix, st) && n == Revocation.Accepted(RefreshTokensByAudience(ix, st, api, cfg.clientId), outcomes)
    ensures var tokens := RefreshTokensByAudience(ix, st, api, cfg.clientId);
            var (ok, st') := Revocation.Revoke(ix, st, api, cfg.clientId, outcomes);
            && (ok <==> n == |tokens|) && TokensGone(st, st', tokens[..n])
            && (ok ==> HoldsOnly(cfg, st', api, {}))
  {
    var tokens := RefreshTokensByAudience(ix, st, api, cfg.clientId);
    Revocation.RevocationIsExact(ix, st, api, cfg.clientId, outcomes);
    forall key | key in st.entries
      ensures Revocation.WithoutTokens(st.entries[key], tokens[..n]) == Bereft(st.entries[key], tokens[..n])
    {
      if "" in tokens[..n] {
        Revocation.RevokedAreHeld(ix, st, api, cfg.clientId, "");
      }
    }
  }

  lemma {:induction false} StripAllStaysSound(cfg: Config, ix: Index, s: Session, tokens: seq<string>)
    requires Sound(cfg, ix, s)
    ensures Sound(cfg, ix, s.(store := Revocation.StripAll(ix, s.store, tokens)))
  {
    if tokens != [] {
      var front, last := tokens[..|tokens| - 1], tokens[|tokens| - 1];
      StripAllStaysSound(cfg, ix, s, front);
      var s1 := s.(store := Revocation.StripAll(ix, s.store, front));
      StripNarrows(cfg, ix, s1.store, last);
      NarrowedStaysSound(cfg, ix, s1, s1.(store := StripRefreshToken(ix, s1.store, last)));
    }
  }

  lemma NoneOfClearedClient(cfg: Config, st: Store, api: string)
    requires forall key :: key in st.entries ==> !Mine(cfg, key)
    ensures HoldsOnly(cfg, st, api, {})
  {
    forall key | IsToken(st, key) && ForAudience(key, api, cfg.clientId)
      ensures Mine(cfg, key)
    {
      ReadKeyIsMine(cfg, key);
    }
  }

  lemma ClearedAfterRevocation(cfg: Config, ix: Index, st: Store, s: Session, tokens: seq<string>, api: string)
    requires Sound(cfg, ix, s) && TokensGone(st, s.store, tokens)
    ensures var s' := ClearLocalSession(ix, s, Some(cfg.clientId));
            Emptied(cfg, st, s', tokens) && HoldsOnly(cfg, s'.store, api, {})
  {
    ClearedSession(cfg, ix, s, Some(cfg.clientId));
    NoneOfClearedClient(cfg, ClearLocalSession(ix, s, Some(cfg.clientId)).store, api);
  }

  /**
   * A revocation without worker succeeds if and only if every request does. The tokens of its audience that
   * were accepted before the first failure are gone from every entry that held them, and nothing else
   * changed, unless the client is online and it succeeded: then nothing of the client is left.
   */
  lemma RevocationExactly(
      cfg: Config, ix: Index, s: Session, audience: Option<string>, outcomes: seq<bool>, workerOk: bool, n: nat)
    requires Sound(cfg, ix, s) && cfg.useRefreshTokens && !cfg.hasWorker
    requires RevokedFirst(
               RefreshTokensByAudience(ix, s.store, RevokedAudience(cfg, audience), cfg.clientId), outcomes, n)
    ensures var tokens := RefreshTokensByAudience(ix, s.store, RevokedAudience(cfg, audience), cfg.clientId);
            var (ok, s') := RevokeRefreshToken(cfg, ix, s, audience, outcomes, workerOk);
            && (ok <==> n == |tokens|)
            && (if ok && cfg.onlineAccess then Emptied(cfg, s.store, s', tokens)
                else TokensGone(s.store, s'.store, tokens[..n]) && s'.user == s.user)
            && (ok ==> HoldsOnly(cfg, s'.store, RevokedAudience(cfg, audience), {}))
  {
    var api := RevokedAudience(cfg, audience);
    var tokens := RefreshTokensByAudience(ix, s.store, api, cfg.clientId);
    var (ok, st1) := Revocation.Revoke(ix, s.store, api, cfg.clientId, outcomes);
    Revocation.AcceptedIsFirstFailure(tokens, outcomes, n);
    AcceptedAreGone(cfg, ix, s.store, api, outcomes, n);
    StripAllStaysSound(cfg, ix, s, tokens[..n]);
    ConcludesRevocation(cfg, ix, s, tokens, n, s.(store := st1), api);
    StripsThenConcludes(cfg, ix, s, audience, outcomes, workerOk, ok, st1);
  }

  lemma StripsThenConcludes(
      cfg: Config, ix: Index, s: Session, audience: Option<string>, outcomes: seq<bool>, workerOk: bool,
      ok: bool, st1: Store)
    requires cfg.useRefreshTokens && !cfg.hasWorker
    requires (ok, st1) == Revocation.Revoke(ix, s.store, RevokedAudience(cfg, audience), cfg.clientId, outcomes)
    ensures RevokeRefreshToken(cfg, ix, s, audience, outcomes, workerOk)
         == (ok, if ok && cfg.onlineAccess then ClearLocalSession(ix, s.(store := st1), Some(cfg.clientId))
                 else s.(store := st1))
  {
  }

  lemma ConcludesRevocation(cfg: Config, ix: Index, s: Session, tokens: seq<string>, n: nat, s1: Session, api: string)
    requires n <= |tokens| && TokensGone(s.store, s1.store, tokens[..n]) && s1.user == s.user && Sound(cfg, ix, s1)
    requires n == |tokens| ==> HoldsOnly(cfg, s1.store, api, {})
    ensures var s' := if n == |tokens| && cfg.onlineAccess then ClearLocalSession(ix, s1, Some(cfg.clientId)) else s1;
            && (if n == |tokens| && cfg.onlineAccess then Emptied(cfg, s.store, s', tokens)
                else TokensGone(s.store, s'.store, tokens[..n]) && s'.user == s.user)
            && (n == |tokens| ==> HoldsOnly(cfg, s'.store, api, {}))
  {
    if n == |tokens| {
      assert tokens[..n] == tokens;
      ClearedAfterRevocation(cfg, ix, s.store, s1, tokens, api);
    }
  }

  /** Without refresh tokens in use nothing happens; with a worker its answer decides, whatever the cache holds. */
  lemma RevocationElsewhere(
      cfg: Config, ix: Index, s: Session, audience: Option<string>, outcomes: seq<bool>, workerOk: bool)
    requires Sound(cfg, ix, s) && (!cfg.useRefreshTokens || cfg.hasWorker)
    ensures var (ok, s') := RevokeRefreshToken(cfg, ix, s, audience, outcomes, workerOk);
            if !cfg.useRefreshTokens then ok && s' == s
            else
              && ok == workerOk
              && if ok && cfg.onlineAccess then Emptied(cfg, s.store, s', []) else s' == s
  {
    ClearedSession(cfg, ix, s, Some(cfg.clientId));
  }
}
