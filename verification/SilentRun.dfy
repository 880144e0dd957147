/**
 * A run in which one request is fetched twice: a first call finds nothing stored and logs in silently, its
 * token runs down, and a second call finds it stale and logs in again. So the conditions under which
 * `SilentTokens` bounds the fetches are met, and the bound is reached.
 */
module SilentRun {
  import opened Prelude
  import opened CacheKeys
  import opened TokenStore
  import opened ClientSession
  import opened SessionSafety
  import opened SessionRuns
  import opened TokenLifetime
  import opened SilentTokens
  import SessionOverlap
  import DanglingKeys
  import L = Locking

  // ------------------------------------------------------------ a run, one step longer

  ghost predicate WellFormed(r: Run) {
    |r.trace| == |r.systems| == |r.steps| + 1 && |r.events| == |r.clock| == |r.steps|
  }

  function LastState(r: Run): L.State
    requires |r.trace| > 0
  {
    r.trace[|r.trace| - 1]
  }

  function LastSystem(r: Run): System
    requires |r.systems| > 0
  {
    r.systems[|r.systems| - 1]
  }

  function Extended(cfg: Config, ix: Index, r: Run, step: L.Event, evs: seq<Event>, now: int): Run
    requires |r.trace| > 0 && |r.systems| > 0 && L.Enabled(LastState(r), step)
  {
    Run(r.trace + [L.Step(LastState(r), step)], r.steps + [step],
        r.systems + [After(cfg, ix, LastSystem(r), evs)], r.events + [evs], r.clock + [now])
  }

  ghost predicate FairJoint(cfg: Config, ix: Index, r: Run) {
    Joint(cfg, ix, r) && SoundSystem(cfg, ix, r.systems[0]) && AllFair(cfg, ix, r.events)
  }

  /** `r` goes on as `r2`. */
  ghost predicate GoesOn(r: Run, r2: Run) {
    && r.trace <= r2.trace && r.steps <= r2.steps && r.systems <= r2.systems
    && r.events <= r2.events && r.clock <= r2.clock
  }

  lemma GoesOnFurther(r: Run, r1: Run, r2: Run)
    requires GoesOn(r, r1) && GoesOn(r1, r2)
    ensures GoesOn(r, r2)
  {
  }

  /** `r2` is `r` and one more step, which leads to these states. */
  ghost predicate LongerBy(r: Run, r2: Run, step: L.Event, evs: seq<Event>, s: L.State, sys: System) {
    && WellFormed(r) && WellFormed(r2) && GoesOn(r, r2) && |r2.steps| == |r.steps| + 1
    && r2.steps[|r.steps|] == step && r2.events[|r.steps|] == evs && LastState(r2) == s && LastSystem(r2) == sys
  }

  lemma OneStepLonger(cfg: Config, ix: Index, r: Run, step: L.Event, evs: seq<Event>, now: int) returns (r2: Run)
    requires FairJoint(cfg, ix, r) && L.Enabled(LastState(r), step)
    requires ActsOnSession(cfg, ix, LastState(r), step, LastSystem(r), evs, now)
    requires forall ev :: ev in evs ==> Fair(cfg, ix, ev)
    ensures FairJoint(cfg, ix, r2)
    ensures LongerBy(r, r2, step, evs, L.Step(LastState(r), step), After(cfg, ix, LastSystem(r), evs))
  {
    r2 := Extended(cfg, ix, r, step, evs, now);
    LongerRun(r, r2, step);
    LongerSession(cfg, ix, r, r2, evs);
    forall k | 0 <= k < |r2.steps|
      ensures ActsOnSession(cfg, ix, r2.trace[k], r2.steps[k], r2.systems[k], r2.events[k], r2.clock[k])
    {
      if k < |r.steps| {
        assert ActsOnSession(cfg, ix, r.trace[k], r.steps[k], r.systems[k], r.events[k], r.clock[k]);
      }
    }
  }

  lemma LongerRun(r: Run, r2: Run, step: L.Event)
    requires L.IsRun(r.trace, r.steps) && L.Enabled(LastState(r), step)
    requires r2.trace == r.trace + [L.Step(LastState(r), step)] && r2.steps == r.steps + [step]
    ensures L.IsRun(r2.trace, r2.steps)
  {
  }

  lemma LongerSession(cfg: Config, ix: Index, r: Run, r2: Run, evs: seq<Event>)
    requires SessionTrace(cfg, ix, r.systems, r.events) && AllFair(cfg, ix, r.events)
    requires forall ev :: ev in evs ==> Fair(cfg, ix, ev)
    requires r2.systems == r.systems + [After(cfg, ix, LastSystem(r), evs)] && r2.events == r.events + [evs]
    ensures SessionTrace(cfg, ix, r2.systems, r2.events) && AllFair(cfg, ix, r2.events)
  {
    forall m, ev | 0 <= m < |r2.events| && ev in r2.events[m]
      ensures Fair(cfg, ix, ev)
    {
      if m < |r.events| {
        assert ev in r.events[m];
      }
    }
  }

  // ------------------------------------------------------------ sessions that do not answer

  /** The request's own entry is stored, with a refresh token, and has run down. */
  ghost predicate Stale(st: Store, key: string, now: int) {
    IsToken(st, key) && Truthy(st.entries[key].body.refreshToken) && !Lasts(st.entries[key].expiresAt, now)
  }

  /** Nobody is logged in, or somebody without a ceiling whose token for the request is stale. */
  ghost predicate Silent(cfg: Config, ix: Index, sys: System, w: L.Want, now: int) {
    && SoundSystem(cfg, ix, sys)
    && var id := StoredId(cfg, sys.session.store);
       id.None? || (id.value.claims.sessionExpiry.NoCeiling? && Stale(sys.session.store, WantKey(cfg, w), now))
  }

  lemma StaleIsMissed(cfg: Config, ix: Index, s: Session, k: CacheKey, now: int)
    requires Stale(s.store, ToKey(k), now)
    ensures var (token, s') := GetEntryFromCache(cfg, ix, s, k, false, now);
            token.None? && Stale(s'.store, ToKey(k), now)
  {
  }

  lemma NobodyIsMissed(cfg: Config, ix: Index, s: Session, k: CacheKey, now: int)
    requires Sound(cfg, ix, s) && StoredId(cfg, s.store).None?
    ensures GetEntryFromCache(cfg, ix, s, k, false, now).0.None?
  {
    GetNarrows(cfg, ix, s.store, k, TOKEN_EXPIRY_LEEWAY_SECONDS, cfg.useMrrt, false, now);
    var s1 := s.(store := Get(ix, s.store, k, TOKEN_EXPIRY_LEEWAY_SECONDS, cfg.useMrrt, false, now).1);
    NarrowedStaysSound(cfg, ix, s, s1);
    SyncReadsStored(cfg, ix, s1, now);
  }

  lemma SilentIsMissed(cfg: Config, ix: Index, sys: System, w: L.Want, now: int)
    requires Silent(cfg, ix, sys, w, now)
    ensures !Finds(cfg, ix, sys.session, w, now) && !PastStoredCeiling(cfg, sys.session, now)
  {
    var k := RefreshKey(cfg, Some(w.audience), w.scope);
    if StoredId(cfg, sys.session.store).None? {
      NobodyIsMissed(cfg, ix, sys.session, k, now);
    } else {
      StaleIsMissed(cfg, ix, sys.session, k, now);
    }
  }

  /** Looking it up leaves it so. */
  lemma LookupStaysSilent(cfg: Config, ix: Index, sys: System, w: L.Want, ev: Event, now: int)
    requires Silent(cfg, ix, sys, w, now)
    requires var k := RefreshKey(cfg, Some(w.audience), w.scope); ev == ReadToken(k, On, now) || ev == Recheck(k, now)
    ensures Silent(cfg, ix, Next(cfg, ix, sys, ev), w, now)
  {
    StepEffect(cfg, ix, sys, ev);
    if StoredId(cfg, sys.session.store).Some? {
      CheckCeilingEffect(cfg, ix, sys.session, now);
      StaleIsMissed(cfg, ix, sys.session, RefreshKey(cfg, Some(w.audience), w.scope), now);
    }
  }

  // ------------------------------------------------------------ one call

  /** The caller is about to start, with all locks free and nothing live. */
  predicate Ready(s: L.State, i: nat, w: L.Want) {
    && i < |s.callers| && s.callers[i] == L.Caller(w, On, false, L.Start)
    && s.locks == map[] && s.live == {}
  }

  predicate GoodLogin(reply: Reply) {
    SessionOverlap.GoodReply(reply) && reply.claims.sessionExpiry.NoCeiling? && reply.accessToken != ""
  }

  /** A check that misses. */
  lemma Checks(cfg: Config, ix: Index, r: Run, i: nat, w: L.Want, step: L.Event, ev: Event, now: int)
    returns (r2: Run)
    requires FairJoint(cfg, ix, r) && Silent(cfg, ix, LastSystem(r), w, now)
    requires i < |LastState(r).callers| && LastState(r).callers[i].want == w && LastState(r).callers[i].mode.On?
    requires w !in LastState(r).live && L.Enabled(LastState(r), step)
    requires var k := RefreshKey(cfg, Some(w.audience), w.scope);
             || (step == L.FirstCheck(i, false) && ev == ReadToken(k, On, now))
             || (step == L.SecondCheck(i) && ev == Recheck(k, now))
    ensures FairJoint(cfg, ix, r2)
    ensures LongerBy(r, r2, step, [ev], L.Step(LastState(r), step), Next(cfg, ix, LastSystem(r), ev))
    ensures Silent(cfg, ix, LastSystem(r2), w, now)
  {
    SilentIsMissed(cfg, ix, LastSystem(r), w, now);
    r2 := OneStepLonger(cfg, ix, r, step, [ev], now);
    LookupStaysSilent(cfg, ix, LastSystem(r), w, ev, now);
    AfterSingle(cfg, ix, LastSystem(r), ev);
  }

  /** The same state with caller `i` at this stage and these locks taken. */
  function At(s: L.State, i: nat, w: L.Want, stage: L.Stage, locks: map<string, nat>): L.State
    requires i < |s.callers|
  {
    L.State(s.callers[i := L.Caller(w, On, false, stage)], locks, {})
  }

  predicate Others(s: L.State, s2: L.State, i: nat) {
    |s2.callers| == |s.callers| && forall j :: 0 <= j < |s.callers| && j != i ==> s2.callers[j] == s.callers[j]
  }

  predicate InCall(s: L.State, s2: L.State, i: nat, w: L.Want) {
    && Others(s, s2, i) && i < |s2.callers|
    && s2.callers[i].want == w && s2.callers[i].mode.On? && s2.live == {}
  }

  lemma MovesToLock(s: L.State, i: nat, w: L.Want)
    requires Ready(s, i, w)
    ensures L.Enabled(s, L.FirstCheck(i, false))
    ensures L.Step(s, L.FirstCheck(i, false)) == At(s, i, w, L.AwaitAudienceLock, map[])
  {
  }

  lemma MovesInside(s: L.State, i: nat, w: L.Want)
    requires i < |s.callers|
    ensures var s1 := At(s, i, w, L.AwaitAudienceLock, map[]);
            && L.Enabled(s1, L.TakeAudienceLock(i))
            && L.Step(s1, L.TakeAudienceLock(i)) == At(s, i, w, L.Locked, map[L.AudienceLock(w) := i])
  {
    L.IframeLockIsApart(w, w);
  }

  lemma MovesToIframe(s: L.State, i: nat, w: L.Want)
    requires i < |s.callers|
    ensures var s2 := At(s, i, w, L.Locked, map[L.AudienceLock(w) := i]);
            && L.Enabled(s2, L.SecondCheck(i))
            && L.Step(s2, L.SecondCheck(i)) == At(s, i, w, L.AwaitIframeLock(false), map[L.AudienceLock(w) := i])
  {
    L.IframeLockIsApart(w, w);
  }

  lemma MovesIntoIframe(s: L.State, i: nat, w: L.Want)
    requires i < |s.callers|
    ensures var s3 := At(s, i, w, L.AwaitIframeLock(false), map[L.AudienceLock(w) := i]);
            && L.Enabled(s3, L.TakeIframeLock(i))
            && L.Step(s3, L.TakeIframeLock(i))
               == At(s, i, w, L.InIframe(false), map[L.AudienceLock(w) := i, L.IframeLock(w) := i])
  {
    L.IframeLockIsApart(w, w);
  }

  lemma MovesOut(s: L.State, i: nat, w: L.Want)
    requires i < |s.callers|
    ensures var s4 := At(s, i, w, L.InIframe(false), map[L.AudienceLock(w) := i, L.IframeLock(w) := i]);
            var e := L.IframeEnds(i, L.Granted({w}));
            L.Enabled(s4, e) && L.Step(s4, e).locks == map[] && Others(s, L.Step(s4, e), i)
  {
    L.IframeLockIsApart(w, w);
  }

  /** The caller's moves through the two locks, from its first check to the end of its login. */
  lemma CallerMoves(s: L.State, i: nat, w: L.Want) returns (s1: L.State, s2: L.State, s3: L.State, s4: L.State)
    requires Ready(s, i, w)
    ensures L.Enabled(s, L.FirstCheck(i, false)) && s1 == L.Step(s, L.FirstCheck(i, false))
    ensures L.Enabled(s1, L.TakeAudienceLock(i)) && s2 == L.Step(s1, L.TakeAudienceLock(i))
    ensures L.Enabled(s2, L.SecondCheck(i)) && s3 == L.Step(s2, L.SecondCheck(i))
    ensures L.Enabled(s3, L.TakeIframeLock(i)) && s4 == L.Step(s3, L.TakeIframeLock(i))
    ensures InCall(s, s2, i, w) && InCall(s, s4, i, w)
    ensures var e := L.IframeEnds(i, L.Granted({w}));
            L.Enabled(s4, e) && L.Step(s4, e).locks == map[] && Others(s, L.Step(s4, e), i)
  {
    s1 := At(s, i, w, L.AwaitAudienceLock, map[]);
    s2 := At(s, i, w, L.Locked, map[L.AudienceLock(w) := i]);
    s3 := At(s, i, w, L.AwaitIframeLock(false), map[L.AudienceLock(w) := i]);
    s4 := At(s, i, w, L.InIframe(false), map[L.AudienceLock(w) := i, L.IframeLock(w) := i]);
    MovesToLock(s, i, w);
    MovesInside(s, i, w);
    MovesToIframe(s, i, w);
    MovesIntoIframe(s, i, w);
    MovesOut(s, i, w);
  }

  /** The reply to a login for the request was saved. */
  ghost predicate Served(cfg: Config, ix: Index, sys: System, w: L.Want, reply: Reply, now: int) {
    && SoundSystem(cfg, ix, sys) && reply.Granted?
    && SessionOverlap.LoggedIn(cfg, sys.session, Some(w.audience), w.scope, reply)
    && Held(sys.session.store, WantKey(cfg, w), reply.accessToken, FloorSeconds(now) + reply.expiresIn)
  }

  /** A silent login for the request: begun, and its reply saved. */
  lemma LoginIsSaved(cfg: Config, ix: Index, sys: System, w: L.Want, reply: Reply, now: int) returns (sys1: System)
    requires SoundSystem(cfg, ix, sys) && FairRequest(cfg, Some(w.audience), w.scope) && w.audience != ""
    requires GoodLogin(reply)
    ensures sys1 == Next(cfg, ix, sys, Begin(0, LoginGrant, Some(w.audience), w.scope, now))
    ensures SoundSystem(cfg, ix, sys1) && SavesFetched(cfg, ix, sys1, [End(0, None, reply, now)], w)
    ensures Served(cfg, ix, Next(cfg, ix, sys1, End(0, None, reply, now)), w, reply, now)
  {
    var begin := Begin(0, LoginGrant, Some(w.audience), w.scope, now);
    StepEffect(cfg, ix, sys, begin);
    sys1 := Next(cfg, ix, sys, begin);
    assert sys1.flights[0] == Flight(LoginGrant, Some(w.audience), w.scope, None);
    IssuedExactly(cfg, ix, sys1.session, RequestOf(sys1.flights[0]), reply, now);
    StepEffect(cfg, ix, sys1, End(0, None, reply, now));
    SessionOverlap.LoginEffect(cfg, ix, sys1, 0, Some(w.audience), w.scope, reply, now);
    FetchedIsHeld(cfg, ix, sys1, End(0, None, reply, now), w);
  }

  /** What a fetch at step `n` looks like. */
  ghost predicate FetchedAt(cfg: Config, ix: Index, r: Run, n: nat, w: L.Want, reply: Reply, now: int) {
    && WellFormed(r) && n < |r.steps| && r.steps[n].IframeEnds? && L.Fetches(r.steps[n])
    && r.steps[n].caller < |r.trace[n].callers|
    && r.trace[n].callers[r.steps[n].caller].want == w && r.trace[n].callers[r.steps[n].caller].mode.On?
    && r.events[n] == [End(0, None, reply, now)] && SavesFetched(cfg, ix, r.systems[n], r.events[n], w)
  }

  lemma FetchStays(cfg: Config, ix: Index, r: Run, r2: Run, n: nat, w: L.Want, reply: Reply, now: int)
    requires FetchedAt(cfg, ix, r, n, w, reply, now) && GoesOn(r, r2) && WellFormed(r2)
    ensures FetchedAt(cfg, ix, r2, n, w, reply, now)
  {
  }

  /** The checks of a call that finds nothing, and the lock between them. */
  lemma CallMisses(
      cfg: Config, ix: Index, r: Run, i: nat, w: L.Want, now: int, s1: L.State, s2: L.State, s3: L.State)
    returns (r3: Run)
    requires FairJoint(cfg, ix, r) && Silent(cfg, ix, LastSystem(r), w, now) && Ready(LastState(r), i, w)
    requires L.Enabled(LastState(r), L.FirstCheck(i, false)) && s1 == L.Step(LastState(r), L.FirstCheck(i, false))
    requires L.Enabled(s1, L.TakeAudienceLock(i)) && s2 == L.Step(s1, L.TakeAudienceLock(i))
    requires L.Enabled(s2, L.SecondCheck(i)) && s3 == L.Step(s2, L.SecondCheck(i))
    requires InCall(LastState(r), s2, i, w)
    ensures FairJoint(cfg, ix, r3) && GoesOn(r, r3) && |r3.steps| == |r.steps| + 3 && LastState(r3) == s3
  {
    var k := RefreshKey(cfg, Some(w.audience), w.scope);
    var r1 := Checks(cfg, ix, r, i, w, L.FirstCheck(i, false), ReadToken(k, On, now), now);
    var r2 := OneStepLonger(cfg, ix, r1, L.TakeAudienceLock(i), [], now);
    r3 := Checks(cfg, ix, r2, i, w, L.SecondCheck(i), Recheck(k, now), now);
    GoesOnFurther(r, r1, r2);
    GoesOnFurther(r, r2, r3);
  }

  /** A call that finds nothing: checks, lock, check, inner lock, login. */
  lemma CallFetches(cfg: Config, ix: Index, r: Run, i: nat, w: L.Want, reply: Reply, now: int) returns (r5: Run)
    requires FairJoint(cfg, ix, r) && Silent(cfg, ix, LastSystem(r), w, now) && Ready(LastState(r), i, w)
    requires FairRequest(cfg, Some(w.audience), w.scope) && w.audience != "" && GoodLogin(reply)
    ensures FairJoint(cfg, ix, r5) && GoesOn(r, r5) && |r5.steps| == |r.steps| + 5
    ensures FetchedAt(cfg, ix, r5, |r.steps| + 4, w, reply, now)
    ensures LastState(r5).locks == map[] && Others(LastState(r), LastState(r5), i)
    ensures Served(cfg, ix, LastSystem(r5), w, reply, now)
  {
    var s1, s2, s3, s4 := CallerMoves(LastState(r), i, w);
    var r3 := CallMisses(cfg, ix, r, i, w, now, s1, s2, s3);
    r5 := LoginEnds(cfg, ix, r3, i, w, reply, now, s4);
    GoesOnFurther(r, r3, r5);
  }

  lemma LoginEnds(
      cfg: Config, ix: Index, r: Run, i: nat, w: L.Want, reply: Reply, now: int, s4: L.State) returns (r2: Run)
    requires FairJoint(cfg, ix, r) && FairRequest(cfg, Some(w.audience), w.scope) && w.audience != ""
    requires GoodLogin(reply) && L.Enabled(LastState(r), L.TakeIframeLock(i))
    requires s4 == L.Step(LastState(r), L.TakeIframeLock(i)) && i < |s4.callers|
    requires s4.callers[i].want == w && s4.callers[i].mode.On?
    requires L.Enabled(s4, L.IframeEnds(i, L.Granted({w})))
    ensures FairJoint(cfg, ix, r2) && GoesOn(r, r2) && |r2.steps| == |r.steps| + 2
    ensures FetchedAt(cfg, ix, r2, |r.steps| + 1, w, reply, now)
    ensures LastState(r2) == L.Step(s4, L.IframeEnds(i, L.Granted({w})))
    ensures Served(cfg, ix, LastSystem(r2), w, reply, now)
  {
    TraceStaysSound(cfg, ix, r, |r.systems| - 1);
    var sys1 := LoginIsSaved(cfg, ix, LastSystem(r), w, reply, now);
    var r1 := LoginBegins(cfg, ix, r, i, Begin(0, LoginGrant, Some(w.audience), w.scope, now), now);
    r2 := FetchEnds(cfg, ix, r1, i, w, reply, now);
    GoesOnFurther(r, r1, r2);
  }

  lemma LoginBegins(cfg: Config, ix: Index, r: Run, i: nat, begin: Event, now: int) returns (r2: Run)
    requires FairJoint(cfg, ix, r) && L.Enabled(LastState(r), L.TakeIframeLock(i)) && Fair(cfg, ix, begin)
    ensures FairJoint(cfg, ix, r2) && GoesOn(r, r2) && |r2.steps| == |r.steps| + 1
    ensures LastState(r2) == L.Step(LastState(r), L.TakeIframeLock(i))
    ensures LastSystem(r2) == Next(cfg, ix, LastSystem(r), begin)
  {
    AfterSingle(cfg, ix, LastSystem(r), begin);
    r2 := OneStepLonger(cfg, ix, r, L.TakeIframeLock(i), [begin], now);
  }

  lemma FetchEnds(cfg: Config, ix: Index, r: Run, i: nat, w: L.Want, reply: Reply, now: int) returns (r2: Run)
    requires FairJoint(cfg, ix, r) && GoodLogin(reply) && i < |LastState(r).callers|
    requires LastState(r).callers[i].want == w && LastState(r).callers[i].mode.On?
    requires L.Enabled(LastState(r), L.IframeEnds(i, L.Granted({w})))
    requires SavesFetched(cfg, ix, LastSystem(r), [End(0, None, reply, now)], w)
    ensures FairJoint(cfg, ix, r2) && GoesOn(r, r2) && |r2.steps| == |r.steps| + 1
    ensures FetchedAt(cfg, ix, r2, |r.steps|, w, reply, now)
    ensures LastState(r2) == L.Step(LastState(r), L.IframeEnds(i, L.Granted({w})))
    ensures LastSystem(r2) == Next(cfg, ix, LastSystem(r), End(0, None, reply, now))
  {
    AfterSingle(cfg, ix, LastSystem(r), End(0, None, reply, now));
    r2 := OneStepLonger(cfg, ix, r, L.IframeEnds(i, L.Granted({w})), [End(0, None, reply, now)], now);
  }

  // ------------------------------------------------------------ two calls

  /** When its token has run down, the request finds nothing again. */
  lemma SilentLater(cfg: Config, ix: Index, sys: System, w: L.Want, reply: Reply, start: int, later: int)
    requires Served(cfg, ix, sys, w, reply, start) && GoodLogin(reply)
    requires !Lasts(FloorSeconds(start) + reply.expiresIn, later)
    ensures Silent(cfg, ix, sys, w, later)
  {
  }

  function FreshStart(w: L.Want): Run {
    var caller := L.Caller(w, On, false, L.Start);
    Run([L.State([caller, caller], map[], {})], [], [System(Session(EMPTY, None), NO_FLIGHTS)], [], [])
  }

  /**
   * Any storable request is fetched twice in some run, for any two good logins, when the second call comes
   * after the first token has run down.
   */
  lemma FetchedTwice(cfg: Config, ix: Index, w: L.Want, first: Reply, second: Reply, start: int, later: int)
    returns (r: Run)
    requires OwnIndex(cfg, ix) && w.client == cfg.clientId && w.audience != ""
    requires FairRequest(cfg, Some(w.audience), w.scope) && GoodLogin(first) && GoodLogin(second)
    requires !Lasts(FloorSeconds(start) + first.expiresIn, later)
    ensures Joint(cfg, ix, r) && SoundSystem(cfg, ix, r.systems[0]) && AllFair(cfg, ix, r.events)
    ensures TwoFetches(cfg, ix, r, 4, 10, w)
  {
    StartIsFair(cfg, ix, w, start);
    var r1 := FirstFetch(cfg, ix, FreshStart(w), w, first, start, later);
    r := CallFetches(cfg, ix, r1, 1, w, second, later);
    FetchStays(cfg, ix, r1, r, 4, w, first, start);
    BothFetch(cfg, ix, r, 4, 10, w, first, second, start, later);
  }

  /** The first call, from a run without steps, and the time that passes until its token has run down. */
  lemma FirstFetch(cfg: Config, ix: Index, r0: Run, w: L.Want, reply: Reply, start: int, later: int)
    returns (r: Run)
    requires FairJoint(cfg, ix, r0) && |r0.steps| == 0 && Silent(cfg, ix, LastSystem(r0), w, start)
    requires Ready(LastState(r0), 0, w) && |LastState(r0).callers| == 2
    requires LastState(r0).callers[1] == L.Caller(w, On, false, L.Start)
    requires w.audience != "" && FairRequest(cfg, Some(w.audience), w.scope) && GoodLogin(reply)
    requires !Lasts(FloorSeconds(start) + reply.expiresIn, later)
    ensures FairJoint(cfg, ix, r) && |r.steps| == 6 && FetchedAt(cfg, ix, r, 4, w, reply, start)
    ensures Silent(cfg, ix, LastSystem(r), w, later) && Ready(LastState(r), 1, w)
  {
    var r1 := CallFetches(cfg, ix, r0, 0, w, reply, start);
    SilentLater(cfg, ix, LastSystem(r1), w, reply, start, later);
    r := TimePasses(cfg, ix, r1, later);
    FetchStays(cfg, ix, r1, r, 4, w, reply, start);
  }

  lemma StartIsFair(cfg: Config, ix: Index, w: L.Want, now: int)
    requires OwnIndex(cfg, ix)
    ensures FairJoint(cfg, ix, FreshStart(w)) && Ready(LastState(FreshStart(w)), 0, w)
    ensures Silent(cfg, ix, LastSystem(FreshStart(w)), w, now) && |FreshStart(w).steps| == 0
    ensures |LastState(FreshStart(w)).callers| == 2
    ensures LastState(FreshStart(w)).callers[1] == L.Caller(w, On, false, L.Start)
  {
    EmptySessionIsSound(cfg, ix);
  }

  lemma TimePasses(cfg: Config, ix: Index, r: Run, later: int) returns (r2: Run)
    requires FairJoint(cfg, ix, r)
    ensures FairJoint(cfg, ix, r2) && GoesOn(r, r2) && |r2.steps| == |r.steps| + 1
    ensures LastState(r2) == LastState(r).(live := {}) && LastSystem(r2) == LastSystem(r)
  {
    r2 := OneStepLonger(cfg, ix, r, L.CacheChanges({}), [], later);
  }

  lemma BothFetch(
      cfg: Config, ix: Index, r: Run, a: nat, b: nat, w: L.Want, first: Reply, second: Reply, start: int, later: int)
    requires Joint(cfg, ix, r) && a < b && FetchedAt(cfg, ix, r, a, w, first, start) && GoodLogin(first)
    requires FetchedAt(cfg, ix, r, b, w, second, later)
    requires w.client == cfg.clientId && FairRequest(cfg, Some(w.audience), w.scope)
    ensures TwoFetches(cfg, ix, r, a, b, w)
  {
  }

  /** On literal values: two logins an hour and a second apart, each for a token of an hour. */
  lemma FetchedTwiceByApp() returns (cfg: Config, r: Run, w: L.Want)
    ensures Joint(cfg, AllKeys, r) && SoundSystem(cfg, AllKeys, r.systems[0]) && AllFair(cfg, AllKeys, r.events)
    ensures TwoFetches(cfg, AllKeys, r, 4, 10, w) && w == L.Want("app", "api", "read")
  {
    cfg := Config("app", None, map[], false, false, false, false, false);
    w := L.Want("app", "api", "read");
    var reply := Granted("at", Some("rt"), None, None, 3600, "id", Claims("user", None, NoCeiling));
    AppIsFair(cfg);
    r := FetchedTwice(cfg, AllKeys, w, reply, reply, 0, 3_601_000);
  }

  lemma AppIsFair(cfg: Config)
    requires cfg.clientId == "app"
    ensures OwnIndex(cfg, AllKeys) && FairRequest(cfg, Some("api"), "read")
  {
    DanglingKeys.KeyOfWords("app", "api", "read");
  }
}
