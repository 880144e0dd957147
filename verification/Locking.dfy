/**
 * The double-checked locking of `getTokenSilently` (src/Auth0Client.ts), over the
 * contract of `runWithLock` (src/lock.ts): a named lock has at most one holder and is
 * released when its callback returns or throws. Any number of callers, of any number
 * of clients, run at once; a caller is suspended at every await, and the cache may be
 * changed by anyone in between.
 */
module Locking {
  import opened Prelude

  /** What a caller asks for. Whether a lookup for it hits is all that matters of the cache. */
  datatype Want = Want(client: string, audience: string, scope: string)

  datatype Outcome = SessionEnded | FromCache | Fetched | Missed | Failed

  /** `again` allows a second iframe flow, when the first was itself a fallback made inside the `try`. */
  datatype Stage =
    | Start
    | AwaitAudienceLock
    | Locked
    | Requesting
    | AwaitIframeLock(again: bool)
    | InIframe(again: bool)
    | Finished(outcome: Outcome)

  datatype Caller = Caller(want: Want, mode: CacheMode, useRefreshTokens: bool, stage: Stage)

  /** `live` holds the wants for which a cache lookup would now return a token. */
  datatype State = State(callers: seq<Caller>, locks: map<string, nat>, live: set<Want>)

  const GET_TOKEN_SILENTLY_LOCK_KEY := "auth0.lock.getTokenSilently"
  const GET_TOKEN_FROM_IFRAME_LOCK_KEY := "auth0.lock.getTokenFromIFrame"

  function AudienceLock(w: Want): string {
    GET_TOKEN_SILENTLY_LOCK_KEY + "." + w.client + "." + w.audience
  }

  function IframeLock(w: Want): string {
    GET_TOKEN_FROM_IFRAME_LOCK_KEY + "." + w.client
  }

  /** How a request ends; a granted token leaves the cache as `live` says. */
  datatype Reply = Granted(live: set<Want>) | FallsBack(again: bool) | Fails

  /** `ended` says that the first check finds the session ceiling reached. */
  datatype Event =
    | FirstCheck(caller: nat, ended: bool)
    | TakeAudienceLock(caller: nat)
    | SecondCheck(caller: nat)
    | RequestEnds(caller: nat, reply: Reply)
    | TakeIframeLock(caller: nat)
    | IframeEnds(caller: nat, reply: Reply)
    | LockTimesOut(caller: nat)
    | CacheChanges(live: set<Want>)

  predicate Enabled(s: State, e: Event) {
    match e
    case CacheChanges(_) => true
    case _ =>
      e.caller < |s.callers| &&
      var c := s.callers[e.caller];
      match e
      case FirstCheck(_, _) => c.stage.Start?
      case TakeAudienceLock(_) => c.stage.AwaitAudienceLock? && AudienceLock(c.want) !in s.locks
      case SecondCheck(_) => c.stage.Locked?
      case RequestEnds(_, _) => c.stage.Requesting?
      case TakeIframeLock(_) => c.stage.AwaitIframeLock? && IframeLock(c.want) !in s.locks
      case IframeEnds(_, reply) => c.stage.InIframe? && (reply.FallsBack? ==> c.stage.again && !reply.again)
      case LockTimesOut(_) => c.stage.AwaitAudienceLock? || c.stage.AwaitIframeLock?
      case CacheChanges(_) => true
  }

  /** The caller's next stage. */
  function Next(s: State, c: Caller, e: Event): Stage {
    match e
    case FirstCheck(_, ended) =>
      if ended then Finished(SessionEnded)
      else if !c.mode.Off? && c.want in s.live then Finished(FromCache)
      else if c.mode.CacheOnly? then Finished(Missed)
      else AwaitAudienceLock
    case TakeAudienceLock(_) => Locked
    case SecondCheck(_) =>
      if !c.mode.Off? && c.want in s.live then Finished(FromCache)
      else if c.useRefreshTokens then Requesting
      else AwaitIframeLock(false)
    case RequestEnds(_, reply) => AfterReply(reply)
    case TakeIframeLock(_) => if c.stage.AwaitIframeLock? then InIframe(c.stage.again) else c.stage
    case IframeEnds(_, reply) => AfterReply(reply)
    case LockTimesOut(_) => Finished(Failed)
    case CacheChanges(_) => c.stage
  }

  function AfterReply(reply: Reply): Stage {
    match reply
    case Granted(_) => Finished(Fetched)
    case FallsBack(again) => AwaitIframeLock(again)
    case Fails => Finished(Failed)
  }

  predicate HoldsAudience(stage: Stage) {
    stage.Locked? || stage.Requesting? || stage.AwaitIframeLock? || stage.InIframe?
  }

  /** The locks a caller's stage entitles it to. */
  predicate Holds(c: Caller, name: string) {
    || (HoldsAudience(c.stage) && name == AudienceLock(c.want))
    || (c.stage.InIframe? && name == IframeLock(c.want))
  }

  /** Taking or releasing one named lock. */
  function Relock(locks: map<string, nat>, name: string, held: bool, holds: bool, i: nat): map<string, nat> {
    if holds && !held then locks[name := i] else if held && !holds then locks - {name} else locks
  }

  function Step(s: State, e: Event): State
    requires Enabled(s, e)
  {
    match e
    case CacheChanges(live) => s.(live := live)
    case _ =>
      var c := s.callers[e.caller];
      var stage := Next(s, c, e);
      var locks := Relock(s.locks, IframeLock(c.want), c.stage.InIframe?, stage.InIframe?, e.caller);
      State(s.callers[e.caller := c.(stage := stage)],
            Relock(locks, AudienceLock(c.want), HoldsAudience(c.stage), HoldsAudience(stage), e.caller),
            if Fetches(e) then e.reply.live
            else if e.FirstCheck? && e.ended then WithoutClient(s.live, c.want.client)
            else s.live)
  }

  /** A session that ended is cleared. */
  function WithoutClient(live: set<Want>, client: string): set<Want> {
    set w | w in live && w.client != client
  }

  predicate Fetches(e: Event) {
    (e.RequestEnds? || e.IframeEnds?) && e.reply.Granted?
  }

  // ---------------------------------------------------------------- lock names

  lemma AudienceLocksAreApart(v: Want, w: Want)
    requires v.client == w.client && AudienceLock(v) == AudienceLock(w)
    ensures v.audience == w.audience
  {
    var prefix := GET_TOKEN_SILENTLY_LOCK_KEY + "." + v.client + ".";
    assert AudienceLock(v)[|prefix|..] == v.audience && AudienceLock(w)[|prefix|..] == w.audience;
  }

  /** No audience, of any client, has the name of an iframe lock. */
  lemma IframeLockIsApart(v: Want, w: Want)
    ensures AudienceLock(v) != IframeLock(w)
  {
    assert AudienceLock(v)[19] == 'S' && IframeLock(w)[19] == 'F';
  }

  // ----------------------------------------------------------------- exclusion

  /** The lock table says exactly who holds what. */
  ghost predicate LocksAreHeld(s: State) {
    && (forall name :: name in s.locks ==> s.locks[name] < |s.callers|)
    && (forall i, name :: 0 <= i < |s.callers| ==>
          (Holds(s.callers[i], name) <==> name in s.locks && s.locks[name] == i))
  }

  /** One named lock taken, kept or released by a caller entitled to it. */
  lemma RelockIsExact(locks: map<string, nat>, name: string, held: bool, holds: bool, i: nat, other: string, j: nat)
    requires held <==> name in locks && locks[name] == i
    requires holds && !held ==> name !in locks
    ensures
      var after := Relock(locks, name, held, holds, i);
      && (other != name || j != i ==>
            (other in after && after[other] == j <==> other in locks && locks[other] == j))
      && (holds <==> name in after && after[name] == i)
  {
  }

  lemma CallerStepKeepsLocks(s: State, e: Event, j: nat, name: string)
    requires LocksAreHeld(s) && Enabled(s, e) && !e.CacheChanges? && j < |s.callers|
    ensures Holds(Step(s, e).callers[j], name) <==> name in Step(s, e).locks && Step(s, e).locks[name] == j
  {
    var i := e.caller;
    var c := s.callers[i];
    var stage := Next(s, c, e);
    var iframe, audience := IframeLock(c.want), AudienceLock(c.want);
    var locks := Relock(s.locks, iframe, c.stage.InIframe?, stage.InIframe?, i);
    IframeLockIsApart(c.want, c.want);
    assert Holds(c, iframe) <==> iframe in s.locks && s.locks[iframe] == i;
    assert Holds(c, audience) <==> audience in s.locks && s.locks[audience] == i;
    RelockIsExact(s.locks, iframe, c.stage.InIframe?, stage.InIframe?, i, name, j);
    RelockIsExact(s.locks, iframe, c.stage.InIframe?, stage.InIframe?, i, audience, i);
    assert audience in locks <==> audience in s.locks;
    RelockIsExact(locks, audience, HoldsAudience(c.stage), HoldsAudience(stage), i, name, j);
    assert Holds(s.callers[j], name) <==> name in s.locks && s.locks[name] == j;
  }

  lemma HoldersStayKnown(s: State, e: Event)
    requires LocksAreHeld(s) && Enabled(s, e)
    ensures forall name :: name in Step(s, e).locks ==> Step(s, e).locks[name] < |Step(s, e).callers|
  {
  }

  lemma StepKeepsLocks(s: State, e: Event)
    requires LocksAreHeld(s) && Enabled(s, e)
    ensures LocksAreHeld(Step(s, e))
  {
    HoldersStayKnown(s, e);
    if !e.CacheChanges? {
      forall j, name | 0 <= j < |s.callers|
        ensures Holds(Step(s, e).callers[j], name) <==> name in Step(s, e).locks && Step(s, e).locks[name] == j
      {
        CallerStepKeepsLocks(s, e, j, name);
      }
    }
  }

  // --------------------------------------------------------------------- runs

  predicate Initial(s: State) {
    s.locks == map[] && forall i :: 0 <= i < |s.callers| ==> s.callers[i].stage == Start
  }

  ghost predicate IsRun(trace: seq<State>, events: seq<Event>) {
    && |trace| == |events| + 1 && Initial(trace[0])
    && (forall k :: 0 <= k < |events| ==> Enabled(trace[k], events[k]) && trace[k + 1] == Step(trace[k], events[k]))
  }

  lemma {:induction false} RunKeepsLocks(trace: seq<State>, events: seq<Event>, k: nat)
    requires IsRun(trace, events) && k < |trace|
    ensures LocksAreHeld(trace[k])
  {
    if k > 0 {
      RunKeepsLocks(trace, events, k - 1);
      StepKeepsLocks(trace[k - 1], events[k - 1]);
    }
  }

  /** Only the stage of a caller ever changes. */
  lemma {:induction false} CallersStay(trace: seq<State>, events: seq<Event>, j: nat, k: nat, i: nat)
    requires IsRun(trace, events) && j <= k < |trace| && i < |trace[j].callers|
    ensures |trace[k].callers| == |trace[j].callers|
    ensures trace[k].callers[i] == trace[j].callers[i].(stage := trace[k].callers[i].stage)
    ensures trace[j].callers[i].stage.Finished? ==> trace[k].callers[i] == trace[j].callers[i]
  {
    if j < k {
      CallersStay(trace, events, j, k - 1, i);
    }
  }

  /**
   * In every reachable state at most one caller per client and audience is between
   * its second cache check and its completion, and at most one iframe flow of a
   * client runs.
   */
  lemma CriticalSectionsAreExclusive(trace: seq<State>, events: seq<Event>, k: nat, i: nat, j: nat)
    requires IsRun(trace, events) && k < |trace| && i < j < |trace[k].callers|
    ensures
      var c, d := trace[k].callers[i], trace[k].callers[j];
      && !(HoldsAudience(c.stage) && HoldsAudience(d.stage)
           && c.want.client == d.want.client && c.want.audience == d.want.audience)
      && !(c.stage.InIframe? && d.stage.InIframe? && c.want.client == d.want.client)
  {
    RunKeepsLocks(trace, events, k);
    var s, w := trace[k], trace[k].callers[i].want;
    var audience, iframe := AudienceLock(w), IframeLock(w);
    assert !Holds(s.callers[i], audience) || s.locks[audience] == i;
    assert !Holds(s.callers[j], audience) || s.locks[audience] == j;
    assert !Holds(s.callers[i], iframe) || s.locks[iframe] == i;
    assert !Holds(s.callers[j], iframe) || s.locks[iframe] == j;
  }

  // ----------------------------------------------------------------- progress

  /** A step of a caller that is not the failure of a lock wait. */
  predicate Moves(e: Event) {
    !e.CacheChanges? && !e.LockTimesOut?
  }

  /** The move open to a caller that waits for no lock. */
  function OwnMove(c: Caller, i: nat): Event {
    match c.stage
    case Locked => SecondCheck(i)
    case Requesting => RequestEnds(i, Fails)
    case InIframe(_) => IframeEnds(i, Fails)
    case AwaitIframeLock(_) => TakeIframeLock(i)
    case AwaitAudienceLock => TakeAudienceLock(i)
    case _ => FirstCheck(i, false)
  }

  lemma AudienceHolderCanMove(s: State, i: nat) returns (e: Event)
    requires LocksAreHeld(s) && i < |s.callers| && HoldsAudience(s.callers[i].stage)
    ensures Enabled(s, e) && Moves(e)
  {
    var c := s.callers[i];
    e := OwnMove(c, i);
    if c.stage.AwaitIframeLock? && IframeLock(c.want) in s.locks {
      var j := s.locks[IframeLock(c.want)];
      assert Holds(s.callers[j], IframeLock(c.want));
      IframeLockIsApart(s.callers[j].want, c.want);
      e := OwnMove(s.callers[j], j);
    }
  }

  /** No reachable state deadlocks on the two lock levels, even if no wait for a lock ever times out. */
  lemma SomeCallerCanMove(trace: seq<State>, events: seq<Event>, k: nat, i: nat) returns (e: Event)
    requires IsRun(trace, events) && k < |trace| && i < |trace[k].callers| && !trace[k].callers[i].stage.Finished?
    ensures Enabled(trace[k], e) && Moves(e)
  {
    var s := trace[k];
    var c := s.callers[i];
    RunKeepsLocks(trace, events, k);
    e := OwnMove(c, i);
    if HoldsAudience(c.stage) {
      e := AudienceHolderCanMove(s, i);
    } else if c.stage.AwaitAudienceLock? && AudienceLock(c.want) in s.locks {
      var j := s.locks[AudienceLock(c.want)];
      assert Holds(s.callers[j], AudienceLock(c.want));
      IframeLockIsApart(c.want, s.callers[j].want);
      e := AudienceHolderCanMove(s, j);
    }
  }

  /** The steps a caller can still take. */
  function Rank(stage: Stage): nat {
    match stage
    case Start => 8
    case AwaitAudienceLock => 7
    case Locked => 6
    case Requesting => 5
    case AwaitIframeLock(again) => if again then 4 else 2
    case InIframe(again) => if again then 3 else 1
    case Finished(_) => 0
  }

  function Remaining(callers: seq<Caller>): nat {
    if callers == [] then 0 else Remaining(callers[..|callers| - 1]) + Rank(callers[|callers| - 1].stage)
  }

  lemma {:induction false} RemainingOfUpdate(callers: seq<Caller>, i: nat, c: Caller)
    requires i < |callers|
    ensures Remaining(callers[i := c]) + Rank(callers[i].stage) == Remaining(callers) + Rank(c.stage)
  {
    var n := |callers| - 1;
    if i < n {
      RemainingOfUpdate(callers[..n], i, c);
      assert callers[i := c][..n] == callers[..n][i := c];
    } else {
      assert callers[i := c][..n] == callers[..n];
    }
  }

  lemma {:induction false} RemainingAtStart(callers: seq<Caller>)
    requires forall i :: 0 <= i < |callers| ==> callers[i].stage == Start
    ensures Remaining(callers) == 8 * |callers|
  {
    if callers != [] {
      RemainingAtStart(callers[..|callers| - 1]);
    }
  }

  function CallerSteps(events: seq<Event>): nat {
    if events == [] then 0
    else CallerSteps(events[..|events| - 1]) + if events[|events| - 1].CacheChanges? then 0 else 1
  }

  lemma StepUsesRank(s: State, e: Event)
    requires Enabled(s, e)
    ensures Remaining(Step(s, e).callers) + (if e.CacheChanges? then 0 else 1) <= Remaining(s.callers)
  {
    if !e.CacheChanges? {
      var c := s.callers[e.caller];
      RemainingOfUpdate(s.callers, e.caller, c.(stage := Next(s, c, e)));
    }
  }

  /**
   * No run livelocks: the callers take at most eight steps each, however their
   * requests end, however often locks time out, and whatever the cache does.
   */
  lemma {:induction false} RunsAreBounded(trace: seq<State>, events: seq<Event>, k: nat)
    requires IsRun(trace, events) && k < |trace|
    ensures CallerSteps(events[..k]) + Remaining(trace[k].callers) <= 8 * |trace[0].callers|
  {
    if k == 0 {
      RemainingAtStart(trace[0].callers);
    } else {
      RunsAreBounded(trace, events, k - 1);
      StepUsesRank(trace[k - 1], events[k - 1]);
      assert events[..k][..k - 1] == events[..k - 1];
    }
  }

  // --------------------------------------------------- one fetch while it lasts

  /** A caller that is fetching passed its second check at some earlier state, and has held its lock since. */
  lemma {:induction false} PassedSecondCheck(trace: seq<State>, events: seq<Event>, k: nat, i: nat) returns (at: nat)
    requires IsRun(trace, events) && k < |trace| && i < |trace[k].callers|
    requires HoldsAudience(trace[k].callers[i].stage) && !trace[k].callers[i].stage.Locked?
    ensures at < k && |trace[at].callers| == |trace[k].callers| && events[at] == SecondCheck(i)
    ensures trace[k].callers[i].mode.On? ==> trace[k].callers[i].want !in trace[at].live
    ensures forall m :: at <= m <= k ==>
      |trace[m].callers| == |trace[k].callers| && HoldsAudience(trace[m].callers[i].stage)
  {
    assert k > 0;
    var s, e := trace[k - 1], events[k - 1];
    if s.callers[i].stage.Locked? {
      at := k - 1;
    } else {
      at := PassedSecondCheck(trace, events, k - 1, i);
    }
  }

  /**
   * Among overlapping calls, once a token for a request has been fetched no `on` call for the same
   * request fetches another while lookups keep hitting: between the two fetches the second caller's
   * check under the lock finds that the cache does not answer it. `SilentTokens` says what that takes.
   */
  lemma OneFetchWhileLive(trace: seq<State>, events: seq<Event>, a: nat, b: nat) returns (at: nat)
    requires IsRun(trace, events) && a < b < |events| && Fetches(events[a]) && Fetches(events[b])
    requires trace[b].callers[events[b].caller].mode.On?
    requires trace[a].callers[events[a].caller].want == trace[b].callers[events[b].caller].want
    ensures a < at < b && events[at] == SecondCheck(events[b].caller) && |trace[at].callers| == |trace[b].callers|
    ensures trace[b].callers[events[b].caller].want !in trace[at].live
    ensures trace[at].callers[events[b].caller].want == trace[b].callers[events[b].caller].want
    ensures trace[at].callers[events[b].caller].mode.On?
  {
    var p, q := events[a].caller, events[b].caller;
    at := PassedSecondCheck(trace, events, b, q);
    CallersStay(trace, events, at, b, q);
    CallersStay(trace, events, a, b, p);
    CallersStay(trace, events, a, b, q);
    if at <= a {
      CallersStay(trace, events, a + 1, b, p);
      assert p != q;
      assert HoldsAudience(trace[a].callers[p].stage) && HoldsAudience(trace[a].callers[q].stage);
      CriticalSectionsAreExclusive(trace, events, a, if p < q then p else q, if p < q then q else p);
    }
  }

  // --------------------------------------------------- why a caller ends as it does

  /** The caller's check finds a token, and it may use the cache. */
  predicate ServedByCheck(s: State, e: Event) {
    (e.FirstCheck? || e.SecondCheck?) && e.caller < |s.callers|
    && !(e.FirstCheck? && e.ended) && s.callers[e.caller].mode != Off && s.callers[e.caller].want in s.live
  }

  /** What ends a caller with this outcome. */
  predicate Cause(s: State, e: Event, outcome: Outcome) {
    match outcome
    case SessionEnded => e.FirstCheck? && e.ended
    case FromCache => ServedByCheck(s, e)
    case Missed =>
      && e.FirstCheck? && !e.ended && e.caller < |s.callers| && s.callers[e.caller].mode == CacheOnly
      && !ServedByCheck(s, e)
    case Fetched => (e.RequestEnds? || e.IframeEnds?) && e.reply.Granted?
    case Failed => e.LockTimesOut? || ((e.RequestEnds? || e.IframeEnds?) && e.reply.Fails?)
  }

  /** A step ends its caller with an outcome if and only if it is a cause of that outcome. */
  lemma StepEndsExactly(s: State, e: Event, outcome: Outcome)
    requires Enabled(s, e) && !e.CacheChanges?
    ensures Step(s, e).callers[e.caller].stage == Finished(outcome) <==> Cause(s, e, outcome)
  {
  }

  /** A finished caller ended at some earlier step of its own, for a cause of its outcome. */
  lemma {:induction false} OutcomeHasCause(trace: seq<State>, events: seq<Event>, k: nat, i: nat) returns (at: nat)
    requires IsRun(trace, events) && k < |trace| && i < |trace[k].callers| && trace[k].callers[i].stage.Finished?
    ensures at < k && !events[at].CacheChanges? && events[at].caller == i
    ensures Cause(trace[at], events[at], trace[k].callers[i].stage.outcome)
  {
    assert k > 0;
    var s, e := trace[k - 1], events[k - 1];
    if s.callers[i].stage.Finished? {
      at := OutcomeHasCause(trace, events, k - 1, i);
    } else {
      at := k - 1;
      StepEndsExactly(s, e, trace[k].callers[i].stage.outcome);
    }
  }

  /** How far a caller may get, by its options. */
  ghost predicate StaysWithin(c: Caller) {
    && (c.mode.CacheOnly? ==> c.stage.Start? || c.stage.Finished?)
    && (c.mode.CacheOnly? && c.stage.Finished? ==> c.stage.outcome in {SessionEnded, FromCache, Missed})
    && (c.mode.Off? && c.stage.Finished? ==> c.stage.outcome in {SessionEnded, Fetched, Failed})
    && (c.mode.On? && c.stage.Finished? ==> !c.stage.outcome.Missed?)
    && (c.stage.Requesting? ==> c.useRefreshTokens)
  }

  ghost predicate AllStayWithin(s: State) {
    forall i :: 0 <= i < |s.callers| ==> StaysWithin(s.callers[i])
  }

  lemma StepStaysWithin(s: State, e: Event)
    requires Enabled(s, e) && AllStayWithin(s)
    ensures AllStayWithin(Step(s, e))
  {
  }

  /**
   * In every run: a `cache-only` caller takes no lock and asks nobody, an `off` caller is never answered from
   * the cache, and only a caller with refresh tokens in use sends a refresh.
   */
  lemma {:induction false} CallersStayWithin(trace: seq<State>, events: seq<Event>, k: nat)
    requires IsRun(trace, events) && k < |trace|
    ensures AllStayWithin(trace[k])
  {
    if k > 0 {
      CallersStayWithin(trace, events, k - 1);
      StepStaysWithin(trace[k - 1], events[k - 1]);
    }
  }

  /** A caller with refresh tokens in use comes to the iframe only after a refresh fell back to it. */
  lemma {:induction false} IframeIsFallback(trace: seq<State>, events: seq<Event>, k: nat, i: nat) returns (at: nat)
    requires IsRun(trace, events) && k < |trace| && i < |trace[k].callers| && trace[k].callers[i].useRefreshTokens
    requires trace[k].callers[i].stage.AwaitIframeLock? || trace[k].callers[i].stage.InIframe?
    ensures at < k && events[at].RequestEnds? && events[at].caller == i && events[at].reply.FallsBack?
  {
    assert k > 0;
    var c := trace[k - 1].callers[i];
    if c.stage.AwaitIframeLock? || c.stage.InIframe? {
      at := IframeIsFallback(trace, events, k - 1, i);
    } else {
      at := k - 1;
    }
  }

  /** Iframe flows of different clients do not wait for each other. */
  lemma IframeLocksAreApart(v: Want, w: Want)
    ensures IframeLock(v) == IframeLock(w) <==> v.client == w.client
  {
    var prefix := GET_TOKEN_FROM_IFRAME_LOCK_KEY + ".";
    assert IframeLock(v)[|prefix|..] == v.client && IframeLock(w)[|prefix|..] == w.client;
  }
}
