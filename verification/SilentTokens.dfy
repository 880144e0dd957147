/**
 * The lock protocol over the real cache. `Locking` asks only whether a lookup would hit; here the answer
 * is the session's, so that a caller fetches again only if the earlier token was ended or ran out.
 */
module SilentTokens {
  import opened Prelude
  import opened CacheKeys
  import opened TokenStore
  import opened ClientSession
  import opened SessionSafety
  import opened SessionRuns
  import opened TokenLifetime
  import L = Locking
  import Scopes

  /** What a caller of this client would find. */
  predicate Finds(cfg: Config, ix: Index, s: Session, w: L.Want, now: int) {
    GetEntryFromCache(cfg, ix, s, RefreshKey(cfg, Some(w.audience), w.scope), false, now).0.Some?
  }

  /** The session does what the fetch says: a reply to a login or a refresh is saved and stays saved. */
  predicate SavesFetched(cfg: Config, ix: Index, sys: System, evs: seq<Event>, w: L.Want) {
    && |evs| == 1 && Handles(sys, evs[0]) && Issues(cfg, ix, sys, evs[0]) && evs[0].reply.Granted?
    && var f, ev := sys.flights[evs[0].id], evs[0];
       && OrElse(f.audience, Scopes.DEFAULT_AUDIENCE) == w.audience && f.scope == w.scope
       && (f.grant.RefreshGrant? ==>
            FinishRefresh(cfg, ix, sys.session, AsRead(f.cached, ev.live), CachedToken(f.cached),
                          f.audience, f.scope, ev.reply, ev.now).0.Refreshed?)
  }

  /** States and steps of the lock protocol beside those of the session, and the clock at each step. */
  datatype Run = Run(
    trace: seq<L.State>,
    steps: seq<L.Event>,
    systems: seq<System>,
    events: seq<seq<Event>>,
    clock: seq<int>)

  ghost predicate SessionTrace(cfg: Config, ix: Index, systems: seq<System>, events: seq<seq<Event>>) {
    && |systems| == |events| + 1
    && forall k :: 0 <= k < |events| ==> systems[k + 1] == After(cfg, ix, systems[k], events[k])
  }

  /**
   * A run of the lock protocol together with the session of client `cfg.clientId`: in each step some
   * events of the session happen. The checks of that client's callers are lookups in the session at the
   * clock, and its fetches are the replies that the session saves.
   */
  ghost predicate Joint(cfg: Config, ix: Index, r: Run) {
    && L.IsRun(r.trace, r.steps) && |r.events| == |r.clock| == |r.steps|
    && SessionTrace(cfg, ix, r.systems, r.events)
    && (forall k :: 0 <= k < |r.steps| ==>
          ActsOnSession(cfg, ix, r.trace[k], r.steps[k], r.systems[k], r.events[k], r.clock[k]))
  }

  predicate ActsOnSession(
      cfg: Config, ix: Index, s: L.State, step: L.Event, sys: System, evs: seq<Event>, now: int)
  {
    !step.CacheChanges? && step.caller < |s.callers| && s.callers[step.caller].want.client == cfg.clientId ==>
      CallerActs(cfg, ix, s.callers[step.caller], s.live, step, sys, evs, now)
  }

  /** The first check includes that of the ceiling; without a cache mode `off` both look the token up. */
  predicate CallerActs(
      cfg: Config, ix: Index, c: L.Caller, live: set<L.Want>, step: L.Event, sys: System, evs: seq<Event>, now: int)
  {
    var w := c.want;
    var k := RefreshKey(cfg, Some(w.audience), w.scope);
    && (step.FirstCheck? ==>
         && evs == [ReadToken(k, c.mode, now)] && (step.ended <==> PastStoredCeiling(cfg, sys.session, now)))
    && (step.SecondCheck? ==> evs == if c.mode.Off? then [] else [Recheck(k, now)])
    && (step.FirstCheck? || step.SecondCheck? ==> (w in live <==> Finds(cfg, ix, sys.session, w, now)))
    && (L.Fetches(step) ==> SavesFetched(cfg, ix, sys, evs, w))
  }

  ghost predicate AllFair(cfg: Config, ix: Index, events: seq<seq<Event>>) {
    forall m, ev :: 0 <= m < |events| && ev in events[m] ==> Fair(cfg, ix, ev)
  }

  /** One of the events may end the token. */
  ghost predicate SomeMayEnd(cfg: Config, ix: Index, sys: System, evs: seq<Event>, key: string, expiresAt: int)
    decreases |evs|
  {
    evs != [] &&
    (MayEnd(cfg, ix, sys, key, expiresAt, evs[0])
     || SomeMayEnd(cfg, ix, Next(cfg, ix, sys, evs[0]), evs[1..], key, expiresAt))
  }

  lemma {:induction false} NoneMayEnd(
      cfg: Config, ix: Index, sys: System, evs: seq<Event>, key: string, expiresAt: int)
    requires !SomeMayEnd(cfg, ix, sys, evs, key, expiresAt) && forall ev :: ev in evs ==> Fair(cfg, ix, ev)
    ensures LeavesAlone(cfg, ix, sys, evs, key, expiresAt)
    decreases |evs|
  {
    if evs != [] {
      assert evs[0] in evs;
      NoneMayEnd(cfg, ix, Next(cfg, ix, sys, evs[0]), evs[1..], key, expiresAt);
    }
  }

  /** Nothing after step `a` and up to step `b` may end the token. */
  ghost predicate LeftAlone(cfg: Config, ix: Index, r: Run, a: int, b: int, key: string, expiresAt: int)
    requires |r.systems| > |r.events|
  {
    forall m :: 0 <= m < |r.events| && a < m <= b ==> !SomeMayEnd(cfg, ix, r.systems[m], r.events[m], key, expiresAt)
  }

  /** The key under which a request's token is saved and first looked up. */
  function WantKey(cfg: Config, w: L.Want): string {
    RequestKey(cfg, Some(w.audience), w.scope)
  }

  lemma ConcludedIsHeld(
      cfg: Config, ix: Index, s: Session, cached: Option<Body>, audience: Option<string>, scope: string,
      result: TokenResult, key: string, token: string, expiresAt: int)
    requires Held(s.store, key, token, expiresAt) && result.Issued?
    requires Conclude(cfg, ix, s, cached, audience, scope, result).0.Refreshed?
    ensures Held(Conclude(cfg, ix, s, cached, audience, scope, result).1.store, key, token, expiresAt)
  {
  }

  /** What was fetched is held from then on, for as long as the server said. */
  lemma FetchedIsHeld(cfg: Config, ix: Index, sys: System, ev: Event, w: L.Want)
    requires SoundSystem(cfg, ix, sys) && Fair(cfg, ix, ev) && SavesFetched(cfg, ix, sys, [ev], w)
    ensures Held(NextSession(cfg, ix, sys, ev).store, WantKey(cfg, w),
                 ev.reply.accessToken, FloorSeconds(ev.now) + ev.reply.expiresIn)
  {
    var f, s := sys.flights[ev.id], sys.session;
    SameKey(cfg, f.audience, f.scope, w);
    if f.grant.RefreshGrant? {
      RefreshedIsHeld(
        cfg, ix, s, AsRead(f.cached, ev.live), CachedToken(f.cached), f.audience, f.scope, ev.reply, ev.now);
    } else {
      SavedIsHeld(cfg, ix, s, RequestOf(f), ev.reply, ev.now);
    }
  }

  lemma RefreshedIsHeld(
      cfg: Config, ix: Index, s: Session, cached: Option<Body>, captured: Option<string>,
      audience: Option<string>, scope: string, reply: Reply, now: int)
    requires Sound(cfg, ix, s) && FairReply(reply) && FairRequest(cfg, audience, scope) && reply.Granted?
    requires RefreshIssues(cfg, ix, s, cached, captured, audience, scope, reply, now)
    requires FinishRefresh(cfg, ix, s, cached, captured, audience, scope, reply, now).0.Refreshed?
    ensures Held(FinishRefresh(cfg, ix, s, cached, captured, audience, scope, reply, now).1.store,
                 RequestKey(cfg, audience, scope), reply.accessToken, FloorSeconds(now) + reply.expiresIn)
  {
    var req := RefreshRequest(cfg, cached, audience, scope).(refreshToken := captured);
    var (result, s1) := RequestToken(cfg, ix, s, req, reply, now);
    SavedIsHeld(cfg, ix, s, req, reply, now);
    ConcludedIsHeld(
      cfg, ix, s1, cached, audience, scope, result,
      RequestKey(cfg, audience, scope), reply.accessToken, FloorSeconds(now) + reply.expiresIn);
  }

  /** When the token of a reply expires. */
  function ExpiryOf(ev: Event): int
    requires ev.End? && ev.reply.Granted?
  {
    FloorSeconds(ev.now) + ev.reply.expiresIn
  }

  lemma SameKey(cfg: Config, audience: Option<string>, scope: string, w: L.Want)
    requires OrElse(audience, Scopes.DEFAULT_AUDIENCE) == w.audience && scope == w.scope
    ensures RequestKey(cfg, audience, scope) == WantKey(cfg, w)
  {
  }

  lemma {:induction false} TraceStaysSound(cfg: Config, ix: Index, r: Run, k: nat)
    requires SessionTrace(cfg, ix, r.systems, r.events) && SoundSystem(cfg, ix, r.systems[0]) && k < |r.systems|
    requires AllFair(cfg, ix, r.events)
    ensures SoundSystem(cfg, ix, r.systems[k])
  {
    if k > 0 {
      TraceStaysSound(cfg, ix, r, k - 1);
      SessionsStaySound(cfg, ix, r.systems[k - 1], r.events[k - 1]);
    }
  }

  lemma HeldThrough(
      cfg: Config, ix: Index, sys: System, evs: seq<Event>, key: string, token: string, expiresAt: int)
    requires SoundSystem(cfg, ix, sys) && Held(sys.session.store, key, token, expiresAt) && !IsManifestKey(ix, key)
    requires !SomeMayEnd(cfg, ix, sys, evs, key, expiresAt) && forall ev :: ev in evs ==> Fair(cfg, ix, ev)
    ensures var sys' := After(cfg, ix, sys, evs);
            SoundSystem(cfg, ix, sys') && Held(sys'.session.store, key, token, expiresAt)
  {
    NoneMayEnd(cfg, ix, sys, evs, key, expiresAt);
    HeldStaysHeld(cfg, ix, sys, evs, key, token, expiresAt);
  }

  lemma {:induction false} HeldBetween(
      cfg: Config, ix: Index, r: Run, a: nat, k: nat, b: nat, key: string, token: string, expiresAt: int)
    requires SessionTrace(cfg, ix, r.systems, r.events) && AllFair(cfg, ix, r.events) && a < k < |r.systems|
    requires SoundSystem(cfg, ix, r.systems[a + 1]) && !IsManifestKey(ix, key)
    requires Held(r.systems[a + 1].session.store, key, token, expiresAt)
    requires k <= b && LeftAlone(cfg, ix, r, a, b, key, expiresAt)
    ensures SoundSystem(cfg, ix, r.systems[k]) && Held(r.systems[k].session.store, key, token, expiresAt)
  {
    if a + 1 < k {
      HeldBetween(cfg, ix, r, a, k - 1, b, key, token, expiresAt);
      HeldThrough(cfg, ix, r.systems[k - 1], r.events[k - 1], key, token, expiresAt);
    }
  }

  /**
   * At most one token request succeeds while its token stays fresh and uncleared. Let a call of any mode
   * fetch a token, and an `on` call for the same audience and scope fetch another one later. Then one of
   * the events that may end a held token happened in between, no later than the second caller's own check
   * under the lock: that check itself is one if the first token had less than the leeway left by then.
   */
  lemma OneFetchWhileTokenLasts(cfg: Config, ix: Index, r: Run, a: nat, b: nat, w: L.Want)
    returns (at: nat, check: nat)
    requires Joint(cfg, ix, r) && SoundSystem(cfg, ix, r.systems[0]) && AllFair(cfg, ix, r.events)
    requires TwoFetches(cfg, ix, r, a, b, w)
    ensures a < at <= check < b && r.steps[check] == L.SecondCheck(r.steps[b].caller)
    ensures SomeMayEnd(cfg, ix, r.systems[at], r.events[at], WantKey(cfg, w), ExpiryOf(r.events[a][0]))
  {
    check := L.OneFetchWhileLive(r.trace, r.steps, a, b);
    var key, until := WantKey(cfg, w), ExpiryOf(r.events[a][0]);
    if LeftAlone(cfg, ix, r, a, check, key, until) {
      HeldIsLive(cfg, ix, r, a, check, w);
      assert false;
    }
    at :| 0 <= at < |r.events| && a < at <= check && SomeMayEnd(cfg, ix, r.systems[at], r.events[at], key, until);
  }

  /** The steps `a` and `b` fetch tokens for the same request of the client, the second one for an `on` caller. */
  ghost predicate TwoFetches(cfg: Config, ix: Index, r: Run, a: nat, b: nat, w: L.Want)
    requires Joint(cfg, ix, r)
  {
    && a < b < |r.steps| && L.Fetches(r.steps[a]) && L.Fetches(r.steps[b])
    && r.trace[a].callers[r.steps[a].caller].want == w == r.trace[b].callers[r.steps[b].caller].want
    && r.trace[b].callers[r.steps[b].caller].mode.On? && w.client == cfg.clientId
    && FairRequest(cfg, Some(w.audience), w.scope)
    && SavesFetched(cfg, ix, r.systems[a], r.events[a], w) && r.events[a][0].reply.accessToken != ""
  }

  /** A token that nothing ended is found by the check under the lock. */
  lemma HeldIsLive(cfg: Config, ix: Index, r: Run, a: nat, check: nat, w: L.Want)
    requires Joint(cfg, ix, r) && SoundSystem(cfg, ix, r.systems[0]) && AllFair(cfg, ix, r.events)
    requires a < check < |r.steps| && FairRequest(cfg, Some(w.audience), w.scope) && w.client == cfg.clientId
    requires SavesFetched(cfg, ix, r.systems[a], r.events[a], w) && r.events[a][0].reply.accessToken != ""
    requires r.steps[check].SecondCheck? && r.steps[check].caller < |r.trace[check].callers|
    requires var c := r.trace[check].callers[r.steps[check].caller]; c.want == w && c.mode.On?
    requires LeftAlone(cfg, ix, r, a, check, WantKey(cfg, w), ExpiryOf(r.events[a][0]))
    ensures w in r.trace[check].live
  {
    var key, until, now := WantKey(cfg, w), ExpiryOf(r.events[a][0]), r.clock[check];
    HeldAfterFetch(cfg, ix, r, a, w);
    HeldBetween(cfg, ix, r, a, check, check, key, r.events[a][0].reply.accessToken, until);
    assert ActsOnSession(
        cfg, ix, r.trace[check], r.steps[check], r.systems[check], r.events[check], r.clock[check]);
    RecheckLasts(cfg, ix, r.systems[check], RefreshKey(cfg, Some(w.audience), w.scope), now, key, until);
    HeldIsFound(
      cfg, ix, r.systems[check].session, Some(w.audience), w.scope, false,
      r.events[a][0].reply.accessToken, until, now);
  }

  /** A lookup that does not end a token comes while it lasts. */
  lemma RecheckLasts(cfg: Config, ix: Index, sys: System, k: CacheKey, now: int, key: string, expiresAt: int)
    requires !SomeMayEnd(cfg, ix, sys, [Recheck(k, now)], key, expiresAt)
    ensures Lasts(expiresAt, now)
  {
  }

  lemma HeldAfterFetch(cfg: Config, ix: Index, r: Run, a: nat, w: L.Want)
    requires SessionTrace(cfg, ix, r.systems, r.events) && SoundSystem(cfg, ix, r.systems[0]) && a < |r.events|
    requires AllFair(cfg, ix, r.events)
    requires SavesFetched(cfg, ix, r.systems[a], r.events[a], w) && FairRequest(cfg, Some(w.audience), w.scope)
    ensures SoundSystem(cfg, ix, r.systems[a + 1]) && !IsManifestKey(ix, WantKey(cfg, w))
    ensures Held(r.systems[a + 1].session.store, WantKey(cfg, w), r.events[a][0].reply.accessToken,
                 ExpiryOf(r.events[a][0]))
  {
    TraceStaysSound(cfg, ix, r, a);
    AfterFetch(cfg, ix, r.systems[a], r.events[a], w);
    FairRequestFacts(cfg, ix, Some(w.audience), w.scope);
  }

  lemma AfterFetch(cfg: Config, ix: Index, sys: System, evs: seq<Event>, w: L.Want)
    requires SoundSystem(cfg, ix, sys) && SavesFetched(cfg, ix, sys, evs, w)
    requires forall ev :: ev in evs ==> Fair(cfg, ix, ev)
    ensures var sys' := After(cfg, ix, sys, evs);
            && SoundSystem(cfg, ix, sys')
            && Held(sys'.session.store, WantKey(cfg, w), evs[0].reply.accessToken,
                    FloorSeconds(evs[0].now) + evs[0].reply.expiresIn)
  {
    assert evs == [evs[0]] && evs[0] in evs;
    FetchedIsHeld(cfg, ix, sys, evs[0], w);
    SessionsStaySound(cfg, ix, sys, evs);
    AfterSingle(cfg, ix, sys, evs[0]);
  }

  lemma AfterSingle(cfg: Config, ix: Index, sys: System, ev: Event)
    ensures After(cfg, ix, sys, [ev]) == Next(cfg, ix, sys, ev)
  {
    assert After(cfg, ix, Next(cfg, ix, sys, ev), []) == Next(cfg, ix, sys, ev);
  }
}
