/**
 * Requests that overlap a login or a logout. A reply is handled in the session it finds, not in the one
 * its request was sent from. This module says exactly when that mixes two users, and that it undoes a
 * logout, and shows runs in which both happen.
 */
module SessionOverlap {
  import opened Prelude
  import opened TokenStore
  import opened ClientSession
  import opened SessionSafety
  import opened SessionRuns
  import U = UpscopeRollback

  // ------------------------------------------------------------ what a reply leaves of the other entries

  /** The request behind a reply, with the looked-up entry as it reads by then. */
  function RequestBehind(cfg: Config, f: Flight, live: Option<string>): TokenRequest {
    if f.grant.RefreshGrant? then
      RefreshRequest(cfg, AsRead(f.cached, live), f.audience, f.scope).(refreshToken := CachedToken(f.cached))
    else RequestOf(f)
  }

  /** The cache when the reply is about to be saved: online, a lookup for the token in use may precede. */
  function BeforeSaving(
      cfg: Config, ix: Index, s: Session, f: Flight, live: Option<string>, reply: Reply, now: int): Store
    requires reply.Granted?
  {
    CarryToken(cfg, ix, s, RequestBehind(cfg, f, live), reply.refreshToken, now).1.store
  }

  ghost predicate SameKeysBut(st: Store, st': Store, key: string) {
    forall k :: k != key ==> (IsToken(st', k) <==> IsToken(st, k))
  }

  lemma FinishKeepsOthers(
      cfg: Config, ix: Index, s: Session, req: TokenRequest, reply: Reply, claims: Claims, now: int,
      carried: Option<string>, s2: Session)
    requires Sound(cfg, ix, s) && reply.Granted? && CeilingAccepted(claims) && FairRequest(cfg, req.audience, req.scope)
    requires CarryToken(cfg, ix, s, req, reply.refreshToken, now) == (carried, s2)
    ensures SameKeysBut(
              s2.store, FinishRequest(cfg, ix, s, req, reply, claims, now).1.store,
              RequestKey(cfg, req.audience, req.scope))
  {
    CarryNarrows(cfg, ix, s, req, reply.refreshToken, now);
    EntryIsSavable(cfg, ix, req, reply, carried);
    U.SaveEntryKeepsTokens(cfg, ix, s2, IdTokenEntry(reply.idToken, claims), EntryFor(cfg, req, reply, carried), now);
  }

  lemma CarryReadsStore(
      cfg: Config, ix: Index, s: Session, s1: Session, req: TokenRequest, replied: Option<string>, now: int)
    requires s1.store == s.store
    ensures CarryToken(cfg, ix, s1, req, replied, now).1.store == CarryToken(cfg, ix, s, req, replied, now).1.store
  {
  }

  lemma RequestKeepsOthers(cfg: Config, ix: Index, s: Session, req: TokenRequest, reply: Reply, now: int, st: Store)
    requires Sound(cfg, ix, s) && FairReply(reply) && FairRequest(cfg, req.audience, req.scope) && !req.isCode
    requires RequestToken(cfg, ix, s, req, reply, now).0.Issued?
    requires st == CarryToken(cfg, ix, s, req, reply.refreshToken, now).1.store
    ensures SameKeysBut(st, RequestToken(cfg, ix, s, req, reply, now).1.store, RequestKey(cfg, req.audience, req.scope))
  {
    var (claims, s1) := BeforeSave(cfg, ix, s, req, reply, now);
    BeforeSaveIsSound(cfg, ix, s, req, reply, now);
    CarryReadsStore(cfg, ix, s, s1, req, reply.refreshToken, now);
    var (carried, s2) := CarryToken(cfg, ix, s1, req, reply.refreshToken, now);
    FinishKeepsOthers(cfg, ix, s1, req, reply, claims, now, carried, s2);
  }

  lemma ConcludeKeepsOthers(
      cfg: Config, ix: Index, s: Session, cached: Option<Body>, audience: Option<string>, scope: string,
      result: TokenResult)
    requires result.Issued?
    ensures SameKeysBut(
              s.store, Conclude(cfg, ix, s, cached, audience, scope, result).1.store, RequestKey(cfg, audience, scope))
  {
    var s1 := Propagate(cfg, ix, s, CachedToken(cached), result.refreshToken);
    assert forall k :: IsToken(s1.store, k) <==> IsToken(s.store, k);
  }

  lemma AnswerKeepsOthers(
      cfg: Config, ix: Index, s: Session, f: Flight, live: Option<string>, reply: Reply, now: int, st: Store)
    requires Sound(cfg, ix, s) && FairReply(reply) && FairRequest(cfg, f.audience, f.scope) && !f.grant.LoginGrant?
    requires RequestToken(cfg, ix, s, RequestBehind(cfg, f, live), reply, now).0.Issued?
    requires st == BeforeSaving(cfg, ix, s, f, live, reply, now)
    ensures SameKeysBut(st, Answered(cfg, ix, s, f, live, reply, now).store, RequestKey(cfg, f.audience, f.scope))
  {
    var req := RequestBehind(cfg, f, live);
    var (result, s1) := RequestToken(cfg, ix, s, req, reply, now);
    RequestKeepsOthers(cfg, ix, s, req, reply, now, st);
    if f.grant.RefreshGrant? {
      ConcludeKeepsOthers(cfg, ix, s1, AsRead(f.cached, live), f.audience, f.scope, result);
    }
  }

  // ------------------------------------------------------------ when two users meet

  /** Some token entry of the client other than the one under `key`. */
  ghost predicate HoldsOther(cfg: Config, st: Store, key: string) {
    exists k :: IsToken(st, k) && Mine(cfg, k) && k != key
  }

  /**
   * A reply, other than a login's, that is saved keeps the tokens of one user together if and only if
   * it is for the user stored when it is handled, or none is stored by then, or the client then holds no
   * other token entry. The user for whom the request was sent does not matter.
   */
  lemma ReplyKeepsOneUserExactly(cfg: Config, ix: Index, o: Owned, ev: Event)
    requires SoundOwned(cfg, ix, o) && Fair(cfg, ix, ev)
    requires Handles(o.sys, ev) && !IsLogin(o.sys, ev) && Issues(cfg, ix, o.sys, ev)
    ensures ev.reply.Granted?
    ensures var o', key := NextOwned(cfg, ix, o, ev), SavedKey(cfg, o.sys, ev);
            var st := BeforeSaving(cfg, ix, o.sys.session, o.sys.flights[ev.id], ev.live, ev.reply, ev.now);
            OneUser(cfg, o'.sys.session.store, o'.owner) <==> SameUser(cfg, o.sys, ev) || !HoldsOther(cfg, st, key)
  {
    StepEffect(cfg, ix, o.sys, ev);
    var f, s := o.sys.flights[ev.id], o.sys.session;
    var st := BeforeSaving(cfg, ix, s, f, ev.live, ev.reply, ev.now);
    AnswerKeepsOthers(cfg, ix, s, f, ev.live, ev.reply, ev.now, st);
    var o' := NextOwned(cfg, ix, o, ev);
    MixedExactly(cfg, s.store, o.owner, st, o'.sys.session.store, SavedKey(cfg, o.sys, ev), ev.reply.claims.sub);
  }

  /** The same on bare stores: `st` before the reply, `mid` before the save, `st'` after it. */
  lemma MixedExactly(
      cfg: Config, st: Store, owner: map<string, string>, mid: Store, st': Store, key: string, sub: string)
    requires OneUser(cfg, st, owner) && TokensAfter(cfg, st, st', key, true, false) && SameKeysBut(mid, st', key)
    requires StoredId(cfg, st').Some? && StoredId(cfg, st').value.claims.sub == sub
    ensures OneUser(cfg, st', owner[key := sub])
      <==> (StoredId(cfg, st).Some? ==> sub == StoredId(cfg, st).value.claims.sub) || !HoldsOther(cfg, mid, key)
  {
    if HoldsOther(cfg, mid, key) && StoredId(cfg, st).Some? && sub != StoredId(cfg, st).value.claims.sub {
      var k :| IsToken(mid, k) && Mine(cfg, k) && k != key;
      assert IsToken(st', k) && IsToken(st, k);
    }
  }

  // ------------------------------------------------------------ the run in which they do

  /** A verified reply with an acceptable ceiling and a refresh token. */
  predicate GoodReply(reply: Reply) {
    reply.Granted? && reply.claims.sub != "" && CeilingAccepted(reply.claims) && Truthy(reply.refreshToken)
  }

  lemma LoginEffect(
      cfg: Config, ix: Index, sys: System, id: nat, audience: Option<string>, scope: string, reply: Reply, now: int)
    requires SoundSystem(cfg, ix, sys) && FairRequest(cfg, audience, scope) && GoodReply(reply)
    requires id in sys.flights && sys.flights[id] == Flight(LoginGrant, audience, scope, None)
    ensures LoggedIn(cfg, Next(cfg, ix, sys, End(id, None, reply, now)).session, audience, scope, reply)
  {
    var req := RequestOf(sys.flights[id]);
    StepEffect(cfg, ix, sys, End(id, None, reply, now));
    IssuedExactly(cfg, ix, sys.session, req, reply, now);
    IssuedIsStored(cfg, ix, sys.session, req, reply, now);
    CarriedIsReplied(cfg, ix, sys.session, req, reply, now);
  }

  ghost predicate LoggedIn(cfg: Config, s: Session, audience: Option<string>, scope: string, reply: Reply)
    requires reply.Granted?
  {
    var key := RequestKey(cfg, audience, scope);
    && StoredId(cfg, s.store) == Some(IdTokenEntry(reply.idToken, reply.claims))
    && IsToken(s.store, key) && Truthy(s.store.entries[key].body.refreshToken)
  }

  /** Other requests stay in flight. */
  ghost predicate OthersInFlight(o: Owned, o': Owned, id: nat) {
    forall j :: j != id && j in o.sys.flights ==> j in o'.sys.flights && o'.sys.flights[j] == o.sys.flights[j]
  }

  lemma LoginBegins(cfg: Config, ix: Index, o: Owned, id: nat, audience: Option<string>, scope: string, now: int)
    returns (o': Owned)
    requires SoundOwned(cfg, ix, o) && FairRequest(cfg, audience, scope)
    ensures o' == NextOwned(cfg, ix, o, Begin(id, LoginGrant, audience, scope, now))
    ensures SoundOwned(cfg, ix, o') && OthersInFlight(o, o', id)
    ensures id in o'.sys.flights && o'.sys.flights[id] == Flight(LoginGrant, audience, scope, None)
  {
    StepKeepsOneUser(cfg, ix, o, Begin(id, LoginGrant, audience, scope, now));
    o' := NextOwned(cfg, ix, o, Begin(id, LoginGrant, audience, scope, now));
  }

  lemma OthersStayInFlight(cfg: Config, ix: Index, o: Owned, ev: Event)
    requires ev.End?
    ensures OthersInFlight(o, NextOwned(cfg, ix, o, ev), ev.id)
  {
    assert NextFlights(cfg, ix, o.sys, ev) == o.sys.flights - {ev.id};
  }

  lemma LoginEnds(
      cfg: Config, ix: Index, o: Owned, id: nat, audience: Option<string>, scope: string, reply: Reply, now: int)
    returns (o': Owned)
    requires SoundOwned(cfg, ix, o) && FairRequest(cfg, audience, scope) && GoodReply(reply)
    requires id in o.sys.flights && o.sys.flights[id] == Flight(LoginGrant, audience, scope, None)
    ensures o' == NextOwned(cfg, ix, o, End(id, None, reply, now))
    ensures SoundOwned(cfg, ix, o') && OthersInFlight(o, o', id)
    ensures LoggedIn(cfg, o'.sys.session, audience, scope, reply)
  {
    var ev := End(id, None, reply, now);
    o' := NextOwned(cfg, ix, o, ev);
    OthersStayInFlight(cfg, ix, o, ev);
    LoginEffect(cfg, ix, o.sys, id, audience, scope, reply, now);
    StepKeepsOneUser(cfg, ix, o, ev);
  }

  /** A whole login, whatever other requests are under way. */
  lemma LogsIn(
      cfg: Config, ix: Index, o: Owned, id: nat, audience: Option<string>, scope: string, reply: Reply, now: int)
    returns (o1: Owned, o2: Owned)
    requires SoundOwned(cfg, ix, o) && FairRequest(cfg, audience, scope) && GoodReply(reply)
    ensures o1 == NextOwned(cfg, ix, o, Begin(id, LoginGrant, audience, scope, now))
    ensures o2 == NextOwned(cfg, ix, o1, End(id, None, reply, now))
    ensures SoundOwned(cfg, ix, o2) && LoggedIn(cfg, o2.sys.session, audience, scope, reply)
      && OthersInFlight(o, o2, id)
  {
    o1 := LoginBegins(cfg, ix, o, id, audience, scope, now);
    o2 := LoginEnds(cfg, ix, o1, id, audience, scope, reply, now);
  }

  /** A refresh that is sent for an entry with a refresh token. */
  lemma SendsRefresh(
      cfg: Config, ix: Index, o: Owned, id: nat, audience: Option<string>, scope: string, reply: Reply, now: int)
    returns (o': Owned)
    requires SoundOwned(cfg, ix, o) && FairRequest(cfg, audience, scope) && GoodReply(reply)
    requires LoggedIn(cfg, o.sys.session, audience, scope, reply)
    ensures o' == NextOwned(cfg, ix, o, Begin(id, RefreshGrant, audience, scope, now)) && SoundOwned(cfg, ix, o')
    ensures id in o'.sys.flights
    ensures var f := o'.sys.flights[id];
            f == Flight(RefreshGrant, audience, scope, f.cached) && Truthy(CachedToken(f.cached))
  {
    RefreshIsSent(cfg, ix, o.sys.session, audience, scope, now);
    StepKeepsOneUser(cfg, ix, o, Begin(id, RefreshGrant, audience, scope, now));
    o' := NextOwned(cfg, ix, o, Begin(id, RefreshGrant, audience, scope, now));
  }

  lemma CarriedIsReplied(cfg: Config, ix: Index, s: Session, req: TokenRequest, reply: Reply, now: int)
    requires reply.Granted? && Truthy(reply.refreshToken) && RequestToken(cfg, ix, s, req, reply, now).0.Issued?
    ensures RequestToken(cfg, ix, s, req, reply, now).0.refreshToken == reply.refreshToken
  {
  }

  /** A refresh for an entry with a refresh token is sent with that token. */
  lemma RefreshIsSent(cfg: Config, ix: Index, s: Session, audience: Option<string>, scope: string, now: int)
    requires IsToken(s.store, RequestKey(cfg, audience, scope))
    requires Truthy(s.store.entries[RequestKey(cfg, audience, scope)].body.refreshToken)
    ensures var start := BeginRefresh(cfg, ix, s, audience, scope, now).0;
            start.Sent? && Truthy(CachedToken(start.cached))
  {
  }

  /** A first login, a refresh that is sent, and another login in a second window. */
  function LoginsAroundRefresh(
      audience: Option<string>, scope: string, first: Reply, other: string, second: Reply, now: int): seq<Event>
  {
    [Begin(0, LoginGrant, audience, scope, now), End(0, None, first, now),
     Begin(1, RefreshGrant, audience, scope, now),
     Begin(2, LoginGrant, audience, other, now), End(2, None, second, now)]
  }

  const NOBODY := Owned(System(Session(EMPTY, None), NO_FLIGHTS), map[])

  lemma LoginsOverlapRefresh(
      cfg: Config, ix: Index, audience: Option<string>, scope: string, other: string, first: Reply, second: Reply,
      now: int)
    returns (o: Owned)
    requires OwnIndex(cfg, ix) && FairRequest(cfg, audience, scope) && FairRequest(cfg, audience, other)
    requires GoodReply(first) && GoodReply(second)
    ensures o == AfterOwned(cfg, ix, NOBODY, LoginsAroundRefresh(audience, scope, first, other, second, now))
    ensures SoundOwned(cfg, ix, o) && LoggedIn(cfg, o.sys.session, audience, other, second) && 1 in o.sys.flights
    ensures var f := o.sys.flights[1];
            f == Flight(RefreshGrant, audience, scope, f.cached) && Truthy(CachedToken(f.cached))
  {
    EmptySessionIsSound(cfg, ix);
    var o1, o2 := LogsIn(cfg, ix, NOBODY, 0, audience, scope, first, now);
    var o3 := SendsRefresh(cfg, ix, o2, 1, audience, scope, first, now);
    var o4, o5 := LogsIn(cfg, ix, o3, 2, audience, other, second, now);
    o := o5;
    AfterFive(
      cfg, ix, NOBODY, Begin(0, LoginGrant, audience, scope, now), End(0, None, first, now),
      Begin(1, RefreshGrant, audience, scope, now),
      Begin(2, LoginGrant, audience, other, now), End(2, None, second, now));
  }

  /**
   * Two users do meet, starting from nothing: one logs in, a refresh for them is sent, another logs in
   * for other scopes in a second window, and only then the first user's reply arrives. Each reply is
   * for the user its request was made for.
   */
  lemma TwoUsersMeet(
      cfg: Config, ix: Index, audience: Option<string>, scope: string, other: string,
      first: Reply, second: Reply, refreshed: Reply, live: Option<string>, now: int)
    requires OwnIndex(cfg, ix) && FairRequest(cfg, audience, scope) && FairRequest(cfg, audience, other)
    requires RequestKey(cfg, audience, scope) != RequestKey(cfg, audience, other)
    requires GoodReply(first) && GoodReply(second) && GoodReply(refreshed)
    requires refreshed.claims.sub == first.claims.sub != second.claims.sub
    requires CeilingAccepted(refreshed.claims.(sessionExpiry := second.claims.sessionExpiry))
    ensures var o := AfterOwned(cfg, ix, NOBODY, LoginsAroundRefresh(audience, scope, first, other, second, now));
            var o' := NextOwned(cfg, ix, o, End(1, live, refreshed, now));
            SoundOwned(cfg, ix, o) && !OneUser(cfg, o'.sys.session.store, o'.owner)
  {
    var o := LoginsOverlapRefresh(cfg, ix, audience, scope, other, first, second, now);
    U.OwnKeyIsMine(cfg, audience, other);
    StaleReplyMixes(cfg, ix, o, 1, live, refreshed, now, RequestKey(cfg, audience, other));
  }

  /** A reply for another user than the stored one, to a refresh sent with a token, beside an entry of that user's. */
  lemma StaleReplyMixes(
      cfg: Config, ix: Index, o: Owned, id: nat, live: Option<string>, reply: Reply, now: int, kept: string)
    requires SoundOwned(cfg, ix, o) && GoodReply(reply) && id in o.sys.flights
    requires o.sys.flights[id].grant.RefreshGrant? && Truthy(CachedToken(o.sys.flights[id].cached))
    requires StoredId(cfg, o.sys.session.store).Some?
    requires reply.claims.sub != StoredId(cfg, o.sys.session.store).value.claims.sub
    requires CeilingAccepted(Pinned(reply.claims, StoredId(cfg, o.sys.session.store)))
    requires IsToken(o.sys.session.store, kept) && Mine(cfg, kept)
    requires kept != RequestKey(cfg, o.sys.flights[id].audience, o.sys.flights[id].scope)
    ensures var o' := NextOwned(cfg, ix, o, End(id, live, reply, now));
            !OneUser(cfg, o'.sys.session.store, o'.owner)
  {
    var f, s, ev := o.sys.flights[id], o.sys.session, End(id, live, reply, now);
    IssuedExactly(cfg, ix, s, RequestBehind(cfg, f, live), reply, now);
    assert BeforeSaving(cfg, ix, s, f, live, reply, now) == s.store;
    ReplyKeepsOneUserExactly(cfg, ix, o, ev);
    assert HoldsOther(cfg, s.store, SavedKey(cfg, o.sys, ev));
  }

  lemma AfterFive(cfg: Config, ix: Index, o: Owned, e0: Event, e1: Event, e2: Event, e3: Event, e4: Event)
    ensures AfterOwned(cfg, ix, o, [e0, e1, e2, e3, e4])
         == NextOwned(cfg, ix, NextOwned(cfg, ix, NextOwned(cfg, ix, NextOwned(cfg, ix,
              NextOwned(cfg, ix, o, e0), e1), e2), e3), e4)
  {
    var o1 := NextOwned(cfg, ix, o, e0);
    var o2 := NextOwned(cfg, ix, o1, e1);
    var o3 := NextOwned(cfg, ix, o2, e2);
    var o4 := NextOwned(cfg, ix, o3, e3);
    AfterOne(cfg, ix, o, e0, [e1, e2, e3, e4]);
    AfterOne(cfg, ix, o1, e1, [e2, e3, e4]);
    AfterOne(cfg, ix, o2, e2, [e3, e4]);
    AfterOne(cfg, ix, o3, e3, [e4]);
    AfterOne(cfg, ix, o4, e4, []);
    assert [e0] + [e1, e2, e3, e4] == [e0, e1, e2, e3, e4] && [e1] + [e2, e3, e4] == [e1, e2, e3, e4];
    assert [e2] + [e3, e4] == [e2, e3, e4] && [e3] + [e4] == [e3, e4] && [e4] + [] == [e4];
  }

  lemma AfterOne(cfg: Config, ix: Index, o: Owned, ev: Event, rest: seq<Event>)
    ensures AfterOwned(cfg, ix, o, [ev] + rest) == AfterOwned(cfg, ix, NextOwned(cfg, ix, o, ev), rest)
  {
    assert ([ev] + rest)[1..] == rest;
  }

  // ------------------------------------------------------------ a reply after a logout

  /**
   * A reply that arrives after a logout is saved all the same: the client is logged in again if and
   * only if the reply is verified and its own ceiling acceptable, whatever request it answers.
   */
  lemma LogoutIsUndoneExactly(
      cfg: Config, ix: Index, sys: System, client: Option<string>, id: nat, live: Option<string>, reply: Reply,
      now: int)
    requires SoundSystem(cfg, ix, sys) && id in sys.flights && FairReply(reply)
    requires client.None? || client == Some(cfg.clientId)
    ensures var out := Next(cfg, ix, sys, Logout(client));
            && StoredId(cfg, out.session.store).None?
            && (StoredId(cfg, Next(cfg, ix, out, End(id, live, reply, now)).session.store).Some?
                <==> (reply.Granted? && CeilingAccepted(reply.claims)))
  {
    StepEffect(cfg, ix, sys, Logout(client));
    ReplyToNobody(cfg, ix, Next(cfg, ix, sys, Logout(client)), id, live, reply, now);
  }

  lemma ReplyToNobody(cfg: Config, ix: Index, sys: System, id: nat, live: Option<string>, reply: Reply, now: int)
    requires SoundSystem(cfg, ix, sys) && id in sys.flights && FairReply(reply)
    requires StoredId(cfg, sys.session.store).None?
    ensures StoredId(cfg, Next(cfg, ix, sys, End(id, live, reply, now)).session.store).Some?
        <==> (reply.Granted? && CeilingAccepted(reply.claims))
  {
    StepEffect(cfg, ix, sys, End(id, live, reply, now));
    IssuedExactly(cfg, ix, sys.session, RequestBehind(cfg, sys.flights[id], live), reply, now);
  }
}
