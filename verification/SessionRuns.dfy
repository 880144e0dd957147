/**
 * Whole runs of a client. A login, another grant and a refresh each have two halves: what is done
 * before the request is sent, and what is done with the reply. Between the two anything may happen,
 * other requests, logins and logouts included.
 */
module SessionRuns {
  import opened Prelude
  import opened CacheKeys
  import opened TokenStore
  import opened ClientSession
  import opened SessionSafety

  datatype Grant = LoginGrant | ExchangeGrant | RefreshGrant

  /** A request that awaits its reply; a refresh also keeps the entry it looked up. */
  datatype Flight = Flight(grant: Grant, audience: Option<string>, scope: string, cached: Option<Body>)

  datatype System = System(session: Session, flights: map<nat, Flight>)

  /**
   * `live` is the refresh token that the looked-up entry holds when the reply is handled: entries are
   * live objects, so another reply may have rotated it, and a revocation may have removed it. `ReadToken`
   * is a token request up to its lock, `Recheck` the lookup it repeats under the lock.
   */
  datatype Event =
    | Begin(id: nat, grant: Grant, audience: Option<string>, scope: string, now: int)
    | End(id: nat, live: Option<string>, reply: Reply, now: int)
    | ReadToken(k: CacheKey, mode: CacheMode, now: int)
    | Recheck(k: CacheKey, now: int)
    | ReadUser(now: int)
    | Revoked(token: string)
    | Logout(client: Option<string>)

  const NO_FLIGHTS: map<nat, Flight> := map[]

  function RequestOf(f: Flight): TokenRequest {
    TokenRequest(f.grant.LoginGrant?, f.audience, f.scope, None, None)
  }

  function AsRead(cached: Option<Body>, live: Option<string>): Option<Body> {
    if cached.Some? then Some(cached.value.(refreshToken := live)) else None
  }

  /** What is done with the reply, in the session as it is by then. */
  function Answered(
      cfg: Config, ix: Index, s: Session, f: Flight, live: Option<string>, reply: Reply, now: int): Session {
    if f.grant.RefreshGrant? then
      FinishRefresh(cfg, ix, s, AsRead(f.cached, live), CachedToken(f.cached), f.audience, f.scope, reply, now).1
    else RequestToken(cfg, ix, s, RequestOf(f), reply, now).1
  }

  /** A reply nobody waits for changes nothing. */
  function NextSession(cfg: Config, ix: Index, sys: System, ev: Event): Session {
    var s := sys.session;
    match ev
    case Begin(_, grant, audience, scope, now) =>
      if grant.RefreshGrant? then BeginRefresh(cfg, ix, s, audience, scope, now).1 else s
    case End(id, live, reply, now) =>
      if id in sys.flights then Answered(cfg, ix, s, sys.flights[id], live, reply, now) else s
    case ReadToken(k, mode, now) => GetTokenBeforeLock(cfg, ix, s, k, mode, now).1
    case Recheck(k, now) => GetEntryFromCache(cfg, ix, s, k, false, now).1
    case ReadUser(now) => GetUser(cfg, ix, s, now).1
    case Revoked(token) => s.(store := StripRefreshToken(ix, s.store, token))
    case Logout(client) => ClearLocalSession(ix, s, client)
  }

  /** A refresh that finds no token to send is over at once. */
  function NextFlights(cfg: Config, ix: Index, sys: System, ev: Event): map<nat, Flight> {
    match ev
    case Begin(id, grant, audience, scope, now) =>
      var start :=
        if grant.RefreshGrant? then BeginRefresh(cfg, ix, sys.session, audience, scope, now).0 else Sent(None);
      if start.Sent? then sys.flights[id := Flight(grant, audience, scope, start.cached)] else sys.flights
    case End(id, _, _, _) => sys.flights - {id}
    case _ => sys.flights
  }

  function Next(cfg: Config, ix: Index, sys: System, ev: Event): System {
    System(NextSession(cfg, ix, sys, ev), NextFlights(cfg, ix, sys, ev))
  }

  function After(cfg: Config, ix: Index, sys: System, evs: seq<Event>): System
    decreases |evs|
  {
    if evs == [] then sys else After(cfg, ix, Next(cfg, ix, sys, evs[0]), evs[1..])
  }

  /** Requests are for storable keys, verified replies have a subject, clears name this client or everyone. */
  ghost predicate Fair(cfg: Config, ix: Index, ev: Event) {
    match ev
    case Begin(_, _, audience, scope, _) => FairRequest(cfg, audience, scope)
    case End(_, _, reply, _) => FairReply(reply)
    case Logout(client) => client.None? || client == Some(cfg.clientId)
    case _ => true
  }

  ghost predicate FairFlights(cfg: Config, sys: System) {
    forall id :: id in sys.flights ==> FairRequest(cfg, sys.flights[id].audience, sys.flights[id].scope)
  }

  ghost predicate SoundSystem(cfg: Config, ix: Index, sys: System) {
    Sound(cfg, ix, sys.session) && FairFlights(cfg, sys)
  }

  /** The reply is handled, as opposed to one that nobody waits for. */
  predicate Handles(sys: System, ev: Event) {
    ev.End? && ev.id in sys.flights
  }

  /** The reply is handled and saved. */
  function Issues(cfg: Config, ix: Index, sys: System, ev: Event): bool {
    Handles(sys, ev) &&
    var f, s := sys.flights[ev.id], sys.session;
    if f.grant.RefreshGrant? then
      RefreshIssues(cfg, ix, s, AsRead(f.cached, ev.live), CachedToken(f.cached), f.audience, f.scope, ev.reply, ev.now)
    else RequestToken(cfg, ix, s, RequestOf(f), ev.reply, ev.now).0.Issued?
  }

  /** The key under which a handled reply is saved. */
  function SavedKey(cfg: Config, sys: System, ev: Event): string {
    if Handles(sys, ev) then RequestKey(cfg, sys.flights[ev.id].audience, sys.flights[ev.id].scope) else ""
  }

  /** A login for another user than the one stored by then. */
  predicate NewUser(cfg: Config, sys: System, ev: Event) {
    Handles(sys, ev) && sys.flights[ev.id].grant.LoginGrant?
    && ChangesUser(cfg, sys.session.store, RequestOf(sys.flights[ev.id]), ev.reply)
  }

  /** The claims that a handled reply would store. */
  function ClaimsToStore(cfg: Config, sys: System, ev: Event): Claims
    requires Handles(sys, ev) && ev.reply.Granted?
  {
    if sys.flights[ev.id].grant.LoginGrant? then ev.reply.claims
    else Pinned(ev.reply.claims, StoredId(cfg, sys.session.store))
  }

  predicate PastStoredCeiling(cfg: Config, s: Session, now: int) {
    StoredId(cfg, s.store).Some? && PastCeiling(StoredId(cfg, s.store).value.claims.sessionExpiry, now)
  }

  /**
   * The events that end a session: a logout, a read past the ceiling, a refresh for a blocked user, and
   * another user's login whose ceiling is then rejected.
   */
  predicate EndsSession(cfg: Config, sys: System, ev: Event) {
    match ev
    case Begin(_, _, _, _, _) => false
    case End(id, _, reply, _) =>
      Handles(sys, ev) &&
      if sys.flights[id].grant.RefreshGrant? then reply == Refused(UserBlocked)
      else NewUser(cfg, sys, ev) && !CeilingAccepted(reply.claims)
    case ReadToken(_, _, now) => PastStoredCeiling(cfg, sys.session, now)
    case Recheck(_, _) => false
    case ReadUser(now) => PastStoredCeiling(cfg, sys.session, now)
    case Revoked(_) => false
    case Logout(_) => true
  }

  /** The whole effect of an event on the id token and on the set of token entries. */
  ghost predicate Effect(cfg: Config, ix: Index, sys: System, ev: Event, s': Session) {
    var st, st' := sys.session.store, s'.store;
    && Sound(cfg, ix, s')
    && TokensAfter(cfg, st, st', SavedKey(cfg, sys, ev), Issues(cfg, ix, sys, ev), NewUser(cfg, sys, ev))
    && (if Issues(cfg, ix, sys, ev) then
          && ev.reply.Granted?
          && StoredId(cfg, st') == Some(IdTokenEntry(ev.reply.idToken, ClaimsToStore(cfg, sys, ev)))
        else StoredId(cfg, st') == if EndsSession(cfg, sys, ev) then None else StoredId(cfg, st))
  }

  lemma AnswerEffect(cfg: Config, ix: Index, sys: System, ev: Event)
    requires SoundSystem(cfg, ix, sys) && Fair(cfg, ix, ev) && Handles(sys, ev)
    ensures Effect(cfg, ix, sys, ev, Answered(cfg, ix, sys.session, sys.flights[ev.id], ev.live, ev.reply, ev.now))
  {
    var f, s := sys.flights[ev.id], sys.session;
    if f.grant.RefreshGrant? {
      FinishRefreshEffect(
        cfg, ix, s, AsRead(f.cached, ev.live), CachedToken(f.cached), f.audience, f.scope, ev.reply, ev.now);
    } else {
      RequestEffect(cfg, ix, s, RequestOf(f), ev.reply, ev.now);
      IssuedExactly(cfg, ix, s, RequestOf(f), ev.reply, ev.now);
    }
  }

  lemma ReadEffect(cfg: Config, ix: Index, sys: System, ev: Event)
    requires SoundSystem(cfg, ix, sys) && (ev.ReadToken? || ev.ReadUser?)
    ensures Effect(cfg, ix, sys, ev, NextSession(cfg, ix, sys, ev))
  {
    CheckCeilingEffect(cfg, ix, sys.session, ev.now);
    if ev.ReadToken? {
      EntryReadEffect(cfg, ix, sys.session, ev.k, ev.mode.CacheOnly?, ev.now);
    } else {
      SyncedStaysSound(cfg, ix, sys.session, ev.now);
      SyncReadsStored(cfg, ix, sys.session, ev.now);
    }
  }

  lemma QuietEffect(cfg: Config, ix: Index, sys: System, ev: Event)
    requires SoundSystem(cfg, ix, sys) && Fair(cfg, ix, ev)
    requires ev.Begin? || ev.Recheck? || ev.Revoked? || ev.Logout?
    ensures Effect(cfg, ix, sys, ev, NextSession(cfg, ix, sys, ev))
  {
    match ev
    case Begin(_, _, audience, scope, now) => BeginRefreshEffect(cfg, ix, sys.session, audience, scope, now);
    case Recheck(k, now) => EntryReadEffect(cfg, ix, sys.session, k, false, now);
    case Revoked(token) =>
      StripNarrows(cfg, ix, sys.session.store, token);
      NarrowedStaysSound(cfg, ix, sys.session, NextSession(cfg, ix, sys, ev));
    case Logout(client) => ClearedSession(cfg, ix, sys.session, client);
  }

  lemma FlightsStayFair(cfg: Config, ix: Index, sys: System, ev: Event)
    requires FairFlights(cfg, sys) && Fair(cfg, ix, ev)
    ensures forall id :: id in NextFlights(cfg, ix, sys, ev) ==>
              var f := NextFlights(cfg, ix, sys, ev)[id]; FairRequest(cfg, f.audience, f.scope)
  {
  }

  lemma StepEffect(cfg: Config, ix: Index, sys: System, ev: Event)
    requires SoundSystem(cfg, ix, sys) && Fair(cfg, ix, ev)
    ensures SoundSystem(cfg, ix, Next(cfg, ix, sys, ev))
    ensures Effect(cfg, ix, sys, ev, NextSession(cfg, ix, sys, ev))
  {
    FlightsStayFair(cfg, ix, sys, ev);
    if Handles(sys, ev) {
      AnswerEffect(cfg, ix, sys, ev);
    } else if ev.ReadToken? || ev.ReadUser? {
      ReadEffect(cfg, ix, sys, ev);
    } else if !ev.End? {
      QuietEffect(cfg, ix, sys, ev);
    }
  }

  /**
   * In every reachable session, however requests overlap, the stored id token has a subject, and
   * iat < ceiling < 10^10 if it has a ceiling.
   */
  lemma {:induction false} SessionsStaySound(cfg: Config, ix: Index, sys: System, evs: seq<Event>)
    requires SoundSystem(cfg, ix, sys) && forall ev :: ev in evs ==> Fair(cfg, ix, ev)
    ensures var sys' := After(cfg, ix, sys, evs);
            && SoundSystem(cfg, ix, sys')
            && (StoredId(cfg, sys'.session.store).Some? ==>
                 var claims := StoredId(cfg, sys'.session.store).value.claims;
                 claims.sub != "" && (claims.sessionExpiry.NoCeiling?
                   || (claims.sessionExpiry.Seconds? && claims.iat.Some?
                       && claims.iat.value < claims.sessionExpiry.at < 10_000_000_000)))
    decreases |evs|
  {
    if evs != [] {
      assert evs[0] in evs;
      StepEffect(cfg, ix, sys, evs[0]);
      SessionsStaySound(cfg, ix, Next(cfg, ix, sys, evs[0]), evs[1..]);
    }
  }

  // ------------------------------------------------------------ the ceiling is pinned

  predicate HasCeiling(cfg: Config, s: Session, at: int) {
    StoredId(cfg, s.store).Some? && StoredId(cfg, s.store).value.claims.sessionExpiry == Seconds(at)
  }

  /** An id token is lost exactly by an event that ends the session. */
  lemma IdTokenLostExactly(cfg: Config, ix: Index, sys: System, ev: Event)
    requires SoundSystem(cfg, ix, sys) && Fair(cfg, ix, ev) && StoredId(cfg, sys.session.store).Some?
    ensures StoredId(cfg, Next(cfg, ix, sys, ev).session.store).None? <==> EndsSession(cfg, sys, ev)
  {
    StepEffect(cfg, ix, sys, ev);
    if Issues(cfg, ix, sys, ev) {
      var f := sys.flights[ev.id];
      if f.grant.RefreshGrant? {
        assert ev.reply != Refused(UserBlocked);
      } else {
        IssuedExactly(cfg, ix, sys.session, RequestOf(f), ev.reply, ev.now);
      }
    }
  }

  predicate IsLogin(sys: System, ev: Event) {
    Handles(sys, ev) && sys.flights[ev.id].grant.LoginGrant?
  }

  /** No event of the run completes a login or ends the session. */
  ghost predicate Undisturbed(cfg: Config, ix: Index, sys: System, evs: seq<Event>)
    decreases |evs|
  {
    evs != [] ==>
      && !IsLogin(sys, evs[0]) && !EndsSession(cfg, sys, evs[0])
      && Undisturbed(cfg, ix, Next(cfg, ix, sys, evs[0]), evs[1..])
  }

  /**
   * Whatever ceilings, or none, the server sends with refreshes and other grants, and however these
   * overlap, a stored ceiling stays what it is until a login is completed or the session ends.
   */
  lemma {:induction false} CeilingStaysPinned(cfg: Config, ix: Index, sys: System, evs: seq<Event>, at: int)
    requires SoundSystem(cfg, ix, sys) && HasCeiling(cfg, sys.session, at)
    requires (forall ev :: ev in evs ==> Fair(cfg, ix, ev)) && Undisturbed(cfg, ix, sys, evs)
    ensures HasCeiling(cfg, After(cfg, ix, sys, evs).session, at)
    decreases |evs|
  {
    if evs != [] {
      assert evs[0] in evs;
      StepEffect(cfg, ix, sys, evs[0]);
      CeilingStaysPinned(cfg, ix, Next(cfg, ix, sys, evs[0]), evs[1..], at);
    }
  }

  /**
   * A reply of any grant whose ceiling, as it would be stored, is not acceptable adds no token. It
   * leaves the id token too, unless it is another user's login, which clears first. In offline mode
   * it then changes nothing at all.
   */
  lemma RejectedSaveWritesNothing(cfg: Config, ix: Index, sys: System, ev: Event)
    requires SoundSystem(cfg, ix, sys) && Fair(cfg, ix, ev) && Handles(sys, ev) && ev.reply.Granted?
    requires !CeilingAccepted(ClaimsToStore(cfg, sys, ev))
    ensures var s, s' := sys.session, Next(cfg, ix, sys, ev).session;
            && (forall key :: IsToken(s'.store, key) ==> IsToken(s.store, key))
            && StoredId(cfg, s'.store) == (if NewUser(cfg, sys, ev) then None else StoredId(cfg, s.store))
            && (!NewUser(cfg, sys, ev) && !cfg.onlineAccess ==> s'.store == s.store)
  {
    StepEffect(cfg, ix, sys, ev);
    if !cfg.onlineAccess && !NewUser(cfg, sys, ev) {
      RejectedAnswer(cfg, ix, sys.session, sys.flights[ev.id], ev.live, ev.reply, ev.now);
    }
  }

  lemma RejectedAnswer(cfg: Config, ix: Index, s: Session, f: Flight, live: Option<string>, reply: Reply, now: int)
    requires Sound(cfg, ix, s) && reply.Granted? && FairReply(reply) && !cfg.onlineAccess
    requires !CeilingAccepted(if f.grant.LoginGrant? then reply.claims
      else Pinned(reply.claims, StoredId(cfg, s.store)))
    requires f.grant.LoginGrant? ==> !ChangesUser(cfg, s.store, RequestOf(f), reply)
    ensures Answered(cfg, ix, s, f, live, reply, now).store == s.store
  {
    var cached := AsRead(f.cached, live);
    var req := RefreshRequest(cfg, cached, f.audience, f.scope).(refreshToken := CachedToken(f.cached));
    RejectedRequest(cfg, ix, s, if f.grant.RefreshGrant? then req else RequestOf(f), reply, now);
  }

  lemma RejectedRequest(cfg: Config, ix: Index, s: Session, req: TokenRequest, reply: Reply, now: int)
    requires Sound(cfg, ix, s) && reply.Granted? && FairReply(reply)
    requires !CeilingAccepted(if req.isCode then reply.claims else Pinned(reply.claims, StoredId(cfg, s.store)))
    ensures RequestToken(cfg, ix, s, req, reply, now).0 == InvalidCeiling
    ensures !cfg.onlineAccess && !ChangesUser(cfg, s.store, req, reply) ==>
              RequestToken(cfg, ix, s, req, reply, now).1.store == s.store
  {
    BeforeSaveIsSound(cfg, ix, s, req, reply, now);
  }

  // --------------------------------------------------------------- one user at a time

  /** The system together with the subject that every saved entry was issued for. */
  datatype Owned = Owned(sys: System, owner: map<string, string>)

  function NextOwned(cfg: Config, ix: Index, o: Owned, ev: Event): Owned {
    Owned(Next(cfg, ix, o.sys, ev),
          if Issues(cfg, ix, o.sys, ev) && ev.reply.Granted?
          then o.owner[SavedKey(cfg, o.sys, ev) := ev.reply.claims.sub] else o.owner)
  }

  function AfterOwned(cfg: Config, ix: Index, o: Owned, evs: seq<Event>): Owned
    decreases |evs|
  {
    if evs == [] then o else AfterOwned(cfg, ix, NextOwned(cfg, ix, o, evs[0]), evs[1..])
  }

  /** A reply other than a login's is for the user stored when it is handled, if one is. */
  predicate SameUser(cfg: Config, sys: System, ev: Event) {
    Handles(sys, ev) && !IsLogin(sys, ev) && ev.reply.Granted? && StoredId(cfg, sys.session.store).Some? ==>
      ev.reply.claims.sub == StoredId(cfg, sys.session.store).value.claims.sub
  }

  ghost predicate FairRun(cfg: Config, ix: Index, o: Owned, evs: seq<Event>)
    decreases |evs|
  {
    evs != [] ==>
      && Fair(cfg, ix, evs[0]) && SameUser(cfg, o.sys, evs[0])
      && FairRun(cfg, ix, NextOwned(cfg, ix, o, evs[0]), evs[1..])
  }

  /** Every token entry of the client was issued for the subject of the stored id token. */
  ghost predicate OneUser(cfg: Config, st: Store, owner: map<string, string>) {
    forall key :: IsToken(st, key) && Mine(cfg, key) ==>
      StoredId(cfg, st).Some? && key in owner && owner[key] == StoredId(cfg, st).value.claims.sub
  }

  ghost predicate SoundOwned(cfg: Config, ix: Index, o: Owned) {
    SoundSystem(cfg, ix, o.sys) && OneUser(cfg, o.sys.session.store, o.owner)
  }

  lemma SavedBelongsToUser(
      cfg: Config, st: Store, owner: map<string, string>, st': Store, key: string, sub: string, cleared: bool)
    requires OneUser(cfg, st, owner) && TokensAfter(cfg, st, st', key, true, cleared)
    requires StoredId(cfg, st').Some? && StoredId(cfg, st').value.claims.sub == sub
    requires cleared || StoredId(cfg, st).None? || StoredId(cfg, st).value.claims.sub == sub
    ensures OneUser(cfg, st', owner[key := sub])
  {
  }

  lemma NothingSavedKeepsUser(
      cfg: Config, ix: Index, st: Store, owner: map<string, string>, st': Store, key: string, cleared: bool)
    requires OneUser(cfg, st, owner) && StoreSound(cfg, ix, st') && TokensAfter(cfg, st, st', key, false, cleared)
    requires StoredId(cfg, st') == StoredId(cfg, st) || StoredId(cfg, st').None?
    ensures OneUser(cfg, st', owner)
  {
  }

  lemma StepKeepsOneUser(cfg: Config, ix: Index, o: Owned, ev: Event)
    requires SoundOwned(cfg, ix, o) && Fair(cfg, ix, ev) && SameUser(cfg, o.sys, ev)
    ensures SoundOwned(cfg, ix, NextOwned(cfg, ix, o, ev))
  {
    StepEffect(cfg, ix, o.sys, ev);
    var st, st' := o.sys.session.store, Next(cfg, ix, o.sys, ev).session.store;
    var key, cleared := SavedKey(cfg, o.sys, ev), NewUser(cfg, o.sys, ev);
    if Issues(cfg, ix, o.sys, ev) {
      SavedBelongsToUser(cfg, st, o.owner, st', key, ev.reply.claims.sub, cleared);
    } else {
      NothingSavedKeepsUser(cfg, ix, st, o.owner, st', key, cleared);
    }
  }

  /**
   * In every run in which each reply, other than a login's, is for the user who is stored when it is
   * handled, all token entries of the client belong to the subject of the stored id token, and there is
   * an id token whenever there is a token entry. `SessionOverlap` shows what becomes of the other runs.
   */
  lemma {:induction false} TokensBelongToOneUser(cfg: Config, ix: Index, o: Owned, evs: seq<Event>)
    requires SoundOwned(cfg, ix, o) && FairRun(cfg, ix, o, evs)
    ensures SoundOwned(cfg, ix, AfterOwned(cfg, ix, o, evs))
    decreases |evs|
  {
    if evs != [] {
      StepKeepsOneUser(cfg, ix, o, evs[0]);
      TokensBelongToOneUser(cfg, ix, NextOwned(cfg, ix, o, evs[0]), evs[1..]);
    }
  }

  /** The empty session, where every run starts, meets the conditions of the run theorems. */
  lemma EmptySessionIsSound(cfg: Config, ix: Index)
    requires OwnIndex(cfg, ix)
    ensures SoundOwned(cfg, ix, Owned(System(Session(EMPTY, None), NO_FLIGHTS), map[]))
  {
  }
}
