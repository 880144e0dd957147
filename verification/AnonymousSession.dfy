/**
 * Anonymous sessions (src/anonymous): what the local cache holds, how each call
 * changes it, and the state machine of any number of callers sharing one client.
 * `getTokenSilently` suspends while it waits for its lock and again while it waits
 * for the server; `logout` and `createSession` change the cache when they are answered.
 */
module AnonymousSession {
  import opened Prelude

  /** `JSON.stringify([audience ?? '', scope ?? ''])` separates exactly these pairs. */
  type Key = (string, string)

  datatype Slot = Slot(accessToken: string, expiresAt: int, scope: Option<string>)

  datatype Shared = Shared(sessionToken: string, expiresAt: Option<int>)

  datatype Cache = Cache(slots: map<Key, Slot>, session: Option<Shared>, expired: bool)

  /** What the server grants: an access token and the session token it belongs to. */
  datatype Grant = Grant(slot: Slot, shared: Shared)

  datatype Reply = Renewed(grant: Grant) | Refused(code: string) | Failed

  const EXPIRY_LEEWAY_SECONDS := 60

  function KeyOf(audience: Option<string>, scope: Option<string>): Key {
    (if audience.Some? then audience.value else "", if scope.Some? then scope.value else "")
  }

  /** `expiresAt - leeway > now / 1000`, where the division is exact. */
  predicate Fresh(slot: Slot, nowMs: int) {
    (slot.expiresAt - EXPIRY_LEEWAY_SECONDS) * 1000 > nowMs
  }

  predicate EndsSession(reply: Reply) {
    reply.Refused? && (reply.code == "session_expired" || reply.code == "invalid_session_token")
  }

  function FreshSlot(c: Cache, key: Key, nowMs: int): Option<Slot> {
    if key in c.slots && Fresh(c.slots[key], nowMs) then Some(c.slots[key]) else None
  }

  function WithSession(c: Cache, shared: Shared): Cache {
    c.(session := Some(shared), expired := false)
  }

  function WithSlot(c: Cache, key: Key, slot: Slot): Cache {
    c.(slots := c.slots[key := slot])
  }

  function Emptied(): Cache {
    Cache(map[], None, false)
  }

  function AfterReply(c: Cache, key: Key, reply: Reply): Cache {
    match reply
    case Renewed(grant) =>
      var stored := WithSlot(c, key, grant.slot);
      if c.session.None? then WithSession(stored, grant.shared) else stored
    case _ => if EndsSession(reply) then Emptied().(expired := true) else c
  }

  function AfterCreate(c: Cache, key: Key, grant: Grant): Cache {
    WithSlot(WithSession(c, grant.shared), key, grant.slot)
  }

  // ----------------------------------------------------------- state machine

  datatype Answer = Token(slot: Slot) | SessionExpired | Error

  /** A waiting caller is `attached` while the store it captured is still the one the cache uses. */
  datatype Caller =
    | Waiting(key: Key, attached: bool)
    | InFlight(key: Key, presented: Option<string>)
    | Done(answer: Answer)

  datatype State = State(cache: Cache, callers: seq<Caller>, lock: Option<nat>, requests: nat, inMemory: bool)

  datatype Event =
    | Call(key: Key, now: int)
    | Enter(caller: nat, now: int)
    | TimedOut(caller: nat)
    | Answered(caller: nat, reply: Reply)
    | Created(key: Key, grant: Grant)
    | LoggedOut

  predicate Enabled(s: State, e: Event) {
    match e
    case Enter(i, _) => i < |s.callers| && s.callers[i].Waiting? && s.lock.None?
    case TimedOut(i) => i < |s.callers| && s.callers[i].Waiting?
    case Answered(i, _) => i < |s.callers| && s.callers[i].InFlight?
    case _ => true
  }

  /** In memory, clearing the slots leaves every captured store empty and unused. */
  function Detached(callers: seq<Caller>, inMemory: bool): seq<Caller> {
    seq(|callers|, i requires 0 <= i < |callers| =>
      if callers[i].Waiting? && inMemory then callers[i].(attached := false) else callers[i])
  }

  /** The checks made under the lock: `None` means that the server is asked. */
  function UnderLock(c: Cache, key: Key, attached: bool, nowMs: int): Option<Answer> {
    if c.expired then Some(SessionExpired)
    else
      var slot := if attached then FreshSlot(c, key, nowMs) else None;
      if slot.Some? then Some(Token(slot.value)) else None
  }

  function SessionToken(c: Cache): Option<string> {
    if c.session.Some? then Some(c.session.value.sessionToken) else None
  }

  function ReplyAnswer(reply: Reply): Answer {
    if reply.Renewed? then Token(reply.grant.slot) else Error
  }

  function Step(s: State, e: Event): State
    requires Enabled(s, e)
  {
    match e
    case Call(key, now) =>
      var slot := FreshSlot(s.cache, key, now);
      s.(callers := s.callers + [if slot.Some? then Done(Token(slot.value)) else Waiting(key, true)])
    case Enter(i, now) =>
      var waiting := s.callers[i];
      var answer := UnderLock(s.cache, waiting.key, waiting.attached, now);
      if answer.Some? then s.(callers := s.callers[i := Done(answer.value)])
      else s.(callers := s.callers[i := InFlight(waiting.key, SessionToken(s.cache))],
              lock := Some(i), requests := s.requests + 1)
    case TimedOut(i) => s.(callers := s.callers[i := Done(Error)])
    case Answered(i, reply) =>
      var callers := s.callers[i := Done(ReplyAnswer(reply))];
      s.(cache := AfterReply(s.cache, s.callers[i].key, reply), lock := None,
         callers := if EndsSession(reply) then Detached(callers, s.inMemory) else callers)
    case Created(key, grant) => s.(cache := AfterCreate(s.cache, key, grant))
    case LoggedOut => s.(cache := Emptied(), callers := Detached(s.callers, s.inMemory))
  }

  // ---------------------------------------------------------------- identity

  /** `who` is the identity a token was issued to. A grant is for one identity, and for the presented one. */
  predicate Honest(who: string -> int, s: State, e: Event)
    requires Enabled(s, e)
  {
    match e
    case Created(_, grant) => ForOne(who, grant)
    case Answered(i, Renewed(grant)) =>
      && ForOne(who, grant)
      && (s.callers[i].presented.Some? ==> who(grant.shared.sessionToken) == who(s.callers[i].presented.value))
    case _ => true
  }

  predicate ForOne(who: string -> int, grant: Grant) {
    who(grant.slot.accessToken) == who(grant.shared.sessionToken)
  }

  /** Every stored slot belongs to the identity of the stored session. */
  ghost predicate SlotsMatchSession(who: string -> int, c: Cache) {
    forall key :: key in c.slots ==>
      c.session.Some? && who(c.slots[key].accessToken) == who(c.session.value.sessionToken)
  }

  /** A reply in flight will be for the stored identity, if any is stored by then. */
  predicate FlightMatchesSession(who: string -> int, c: Cache, presented: Option<string>) {
    c.session.Some? ==> presented.Some? && who(presented.value) == who(c.session.value.sessionToken)
  }

  ghost predicate LockIsHeld(s: State) {
    && (s.lock.Some? ==> s.lock.value < |s.callers|)
    && forall i :: 0 <= i < |s.callers| ==> (s.callers[i].InFlight? <==> s.lock == Some(i))
  }

  ghost predicate OneIdentity(who: string -> int, s: State) {
    && SlotsMatchSession(who, s.cache)
    && LockIsHeld(s)
    && (forall i :: 0 <= i < |s.callers| && s.callers[i].InFlight? ==>
          FlightMatchesSession(who, s.cache, s.callers[i].presented))
    && (s.cache.expired ==> s.cache.session.None? && s.lock.None?)
  }

  /** A new session joins what is stored only if every other slot and any reply in flight is its own identity's. */
  ghost predicate JoinsStored(who: string -> int, s: State, key: Key, grant: Grant) {
    && (forall other :: other in s.cache.slots && other != key ==>
          who(s.cache.slots[other].accessToken) == who(grant.shared.sessionToken))
    && (forall i :: 0 <= i < |s.callers| && s.callers[i].InFlight? ==>
          s.callers[i].presented.Some? && who(s.callers[i].presented.value) == who(grant.shared.sessionToken))
  }

  /** `createSession` keeps one identity exactly when it joins what is stored. */
  lemma CreateKeepsIdentityExactly(who: string -> int, s: State, key: Key, grant: Grant)
    requires OneIdentity(who, s) && ForOne(who, grant)
    ensures OneIdentity(who, Step(s, Created(key, grant))) <==> JoinsStored(who, s, key, grant)
  {
    var t := Step(s, Created(key, grant));
    if OneIdentity(who, t) {
      forall other | other in s.cache.slots && other != key
        ensures who(s.cache.slots[other].accessToken) == who(grant.shared.sessionToken)
      {
        assert other in t.cache.slots;
      }
    }
  }

  /** The granted identity is nobody's yet: no stored slot, no token presented in flight belongs to it. */
  ghost predicate FreshIdentity(who: string -> int, s: State, grant: Grant) {
    && (forall key :: key in s.cache.slots ==> who(s.cache.slots[key].accessToken) != who(grant.shared.sessionToken))
    && (forall i :: 0 <= i < |s.callers| && s.callers[i].InFlight? && s.callers[i].presented.Some? ==>
          who(s.callers[i].presented.value) != who(grant.shared.sessionToken))
  }

  /**
   * For a new identity, as `createSession` is given one, the condition can be checked before the call:
   * no slot but the one to be written is stored, and no call is at the server.
   */
  lemma NewIdentityIsKeptExactly(who: string -> int, s: State, key: Key, grant: Grant)
    requires OneIdentity(who, s) && ForOne(who, grant) && FreshIdentity(who, s, grant)
    ensures OneIdentity(who, Step(s, Created(key, grant)))
      <==> (forall other :: other in s.cache.slots ==> other == key) && s.lock.None?
  {
    CreateKeepsIdentityExactly(who, s, key, grant);
    if s.lock.Some? {
      assert s.callers[s.lock.value].InFlight?;
    }
  }

  lemma EnterKeepsIdentity(who: string -> int, s: State, i: nat, now: int)
    requires OneIdentity(who, s) && Enabled(s, Enter(i, now))
    ensures OneIdentity(who, Step(s, Enter(i, now)))
  {
  }

  lemma AnsweredKeepsIdentity(who: string -> int, s: State, i: nat, reply: Reply)
    requires OneIdentity(who, s) && Enabled(s, Answered(i, reply)) && Honest(who, s, Answered(i, reply))
    ensures OneIdentity(who, Step(s, Answered(i, reply)))
  {
    var t := Step(s, Answered(i, reply));
    assert s.lock == Some(i);
    forall j | 0 <= j < |t.callers|
      ensures !t.callers[j].InFlight?
    {
      assert s.callers[j].InFlight? ==> j == i;
    }
    assert FlightMatchesSession(who, s.cache, s.callers[i].presented);
  }

  lemma StepKeepsIdentity(who: string -> int, s: State, e: Event)
    requires OneIdentity(who, s) && Enabled(s, e) && Honest(who, s, e)
    requires e.Created? ==> JoinsStored(who, s, e.key, e.grant)
    ensures OneIdentity(who, Step(s, e))
  {
    match e
    case Call(key, now) =>
    case Enter(i, now) => EnterKeepsIdentity(who, s, i, now);
    case TimedOut(i) =>
    case Answered(i, reply) => AnsweredKeepsIdentity(who, s, i, reply);
    case Created(key, grant) => CreateKeepsIdentityExactly(who, s, key, grant);
    case LoggedOut =>
  }

  // -------------------------------------------------------------------- runs

  ghost predicate IsRun(trace: seq<State>, events: seq<Event>) {
    && |trace| == |events| + 1
    && (forall k :: 0 <= k < |events| ==> Enabled(trace[k], events[k]) && trace[k + 1] == Step(trace[k], events[k]))
  }

  predicate Initial(s: State) {
    s.cache == Emptied() && s.callers == [] && s.lock == None
  }

  /** The server keeps identities, and every new session joins what is stored. */
  ghost predicate Orderly(who: string -> int, trace: seq<State>, events: seq<Event>)
    requires IsRun(trace, events)
  {
    forall k :: 0 <= k < |events| ==>
      && Honest(who, trace[k], events[k])
      && (events[k].Created? ==> JoinsStored(who, trace[k], events[k].key, events[k].grant))
  }

  lemma {:induction false} RunKeepsIdentity(who: string -> int, trace: seq<State>, events: seq<Event>, k: nat)
    requires IsRun(trace, events) && Initial(trace[0]) && Orderly(who, trace, events) && k < |trace|
    ensures OneIdentity(who, trace[k])
  {
    if k > 0 {
      RunKeepsIdentity(who, trace, events, k - 1);
      StepKeepsIdentity(who, trace[k - 1], events[k - 1]);
    }
  }

  /** A call that a step completes with a token. */
  predicate Completes(s: State, t: State, i: nat) {
    i < |t.callers| && t.callers[i].Done? && t.callers[i].answer.Token? && (i < |s.callers| ==> !s.callers[i].Done?)
  }

  lemma AnswerMatchesSession(who: string -> int, s: State, e: Event, i: nat)
    requires OneIdentity(who, s) && Enabled(s, e) && Honest(who, s, e) && Completes(s, Step(s, e), i)
    ensures Step(s, e).cache.session.Some?
    ensures who(Step(s, e).callers[i].answer.slot.accessToken) == who(Step(s, e).cache.session.value.sessionToken)
  {
    if e.Answered? {
      assert i == e.caller;
      assert FlightMatchesSession(who, s.cache, s.callers[i].presented);
    }
  }

  /**
   * In every run of any number of overlapping calls, logouts and joining creations:
   * all stored slots carry the identity of the stored session, at most one call is at
   * the server, and every token handed out is the stored identity's at that moment.
   */
  lemma IdentityIsStable(who: string -> int, trace: seq<State>, events: seq<Event>, k: nat, i: nat)
    requires IsRun(trace, events) && Initial(trace[0]) && Orderly(who, trace, events) && k < |events|
    ensures SlotsMatchSession(who, trace[k + 1].cache) && LockIsHeld(trace[k + 1])
    ensures Completes(trace[k], trace[k + 1], i) ==>
      && trace[k + 1].cache.session.Some?
      && who(trace[k + 1].callers[i].answer.slot.accessToken) == who(trace[k + 1].cache.session.value.sessionToken)
  {
    RunKeepsIdentity(who, trace, events, k);
    RunKeepsIdentity(who, trace, events, k + 1);
    if Completes(trace[k], trace[k + 1], i) {
      AnswerMatchesSession(who, trace[k], events[k], i);
    }
  }

  // ------------------------------------------------------------------ expiry

  /** Marked expired: nothing is stored and nobody is at the server. */
  ghost predicate Lapsed(s: State) {
    && s.cache == Emptied().(expired := true)
    && LockIsHeld(s) && s.lock.None?
  }

  lemma {:induction false} StaysLapsed(trace: seq<State>, events: seq<Event>, from: nat, k: nat)
    requires IsRun(trace, events) && from <= k < |trace| && Lapsed(trace[from])
    requires forall j :: from <= j < k ==> !events[j].Created? && !events[j].LoggedOut?
    ensures Lapsed(trace[k]) && trace[k].requests == trace[from].requests
  {
    if from < k {
      StaysLapsed(trace, events, from, k - 1);
    }
  }

  lemma {:induction false} RunKeepsLock(trace: seq<State>, events: seq<Event>, k: nat)
    requires IsRun(trace, events) && Initial(trace[0]) && k < |trace|
    ensures LockIsHeld(trace[k])
  {
    if k > 0 {
      RunKeepsLock(trace, events, k - 1);
    }
  }

  /**
   * In every run, whatever the server and other callers do: once a reply ends the
   * session, no call reaches the server until a session is created or a logout is done.
   */
  lemma ExpiryStopsRequests(trace: seq<State>, events: seq<Event>, from: nat, k: nat)
    requires IsRun(trace, events) && Initial(trace[0]) && from < k < |trace|
    requires events[from].Answered? && EndsSession(events[from].reply)
    requires forall j :: from < j < k ==> !events[j].Created? && !events[j].LoggedOut?
    ensures trace[k].requests == trace[from].requests && trace[k].cache == Emptied().(expired := true)
  {
    RunKeepsLock(trace, events, from);
    RunKeepsLock(trace, events, from + 1);
    StaysLapsed(trace, events, from + 1, k);
  }

  /** A second `createSession` for another slot leaves the first identity's token beside the new session. */
  lemma SecondCreateMixesIdentities(who: string -> int, first: Grant, second: Grant, a: Key, b: Key)
    requires ForOne(who, first) && ForOne(who, second) && a != b
    requires who(first.shared.sessionToken) != who(second.shared.sessionToken)
    ensures
      var once := Step(State(Emptied(), [], None, 0, true), Created(a, first));
      OneIdentity(who, once) && !OneIdentity(who, Step(once, Created(b, second)))
  {
    var once := Step(State(Emptied(), [], None, 0, true), Created(a, first));
    assert once.cache.slots == map[a := first.slot];
    CreateKeepsIdentityExactly(who, once, b, second);
    assert a in once.cache.slots;
  }

  // -------------------------------------------------------------- what callers get

  /** Slots are kept apart by audience and by scope, where an absent one counts as empty. */
  lemma SlotsAreApart(a: Option<string>, s: Option<string>, b: Option<string>, t: Option<string>)
    ensures KeyOf(a, s) == KeyOf(b, t)
      <==> (Truthy(a) || Truthy(b) ==> a == b) && (Truthy(s) || Truthy(t) ==> s == t)
  {
  }

  /** The slot stored for the key has more than 60 seconds left. */
  predicate HasLeft(c: Cache, key: Key, slot: Slot, nowMs: int) {
    key in c.slots && c.slots[key] == slot && slot.expiresAt * 1000 - nowMs > 60_000
  }

  /** A call is answered at once if and only if its slot has more than 60 seconds left, and with that slot. */
  lemma CallAnswersExactly(s: State, key: Key, now: int, slot: Slot)
    ensures var t := Step(s, Call(key, now));
            && |t.callers| == |s.callers| + 1 && t.cache == s.cache && t.lock == s.lock && t.requests == s.requests
            && (t.callers[|s.callers|] == Done(Token(slot)) <==> HasLeft(s.cache, key, slot, now))
            && (t.callers[|s.callers|] != Waiting(key, true) ==> exists sl :: HasLeft(s.cache, key, sl, now))
  {
    assert FreshSlot(s.cache, key, now).Some? ==> HasLeft(s.cache, key, s.cache.slots[key], now);
  }

  /** The session token to present. */
  function Presented(c: Cache): Option<string> {
    if c.session == None then None else Some(c.session.value.sessionToken)
  }

  /**
   * Under the lock the call is refused if and only if the session has ended. Otherwise it is answered from the
   * store it holds, if that is still in use and has more than 60 seconds left, and else asks the server,
   * presenting the session token if there is one.
   */
  lemma EnterAnswersExactly(s: State, i: nat, now: int, slot: Slot)
    requires Enabled(s, Enter(i, now))
    ensures var t, w := Step(s, Enter(i, now)), s.callers[i];
            && t.cache == s.cache
            && (t.callers[i] == Done(SessionExpired) <==> s.cache.expired)
            && (t.callers[i] == Done(Token(slot))
                <==> !s.cache.expired && w.attached && HasLeft(s.cache, w.key, slot, now))
            && (t.callers[i].InFlight? <==> t.requests == s.requests + 1)
            && (t.callers[i].InFlight? <==>
                 !s.cache.expired && !(w.attached && exists sl :: HasLeft(s.cache, w.key, sl, now)))
            && (t.callers[i].InFlight? ==> t.lock == Some(i) && t.callers[i] == InFlight(w.key, Presented(s.cache)))
  {
    var key := s.callers[i].key;
    assert FreshSlot(s.cache, key, now).Some? ==> HasLeft(s.cache, key, s.cache.slots[key], now);
  }

  /** The server says that the session is over. */
  predicate Over(reply: Reply) {
    reply == Refused("session_expired") || reply == Refused("invalid_session_token")
  }

  /**
   * A granted token is handed out and stored for the call's own slot, and a session that is stored already is
   * kept. A reply that says the session is over empties and marks the cache; any other leaves it alone.
   */
  lemma ReplyIsStoredExactly(s: State, i: nat, reply: Reply, key: Key)
    requires Enabled(s, Answered(i, reply))
    ensures var t, c := Step(s, Answered(i, reply)), s.cache;
            && t.lock.None? && t.callers[i] == Done(if reply.Renewed? then Token(reply.grant.slot) else Error)
            && (if reply.Renewed? then
                  && t.cache.slots == c.slots[s.callers[i].key := reply.grant.slot]
                  && t.cache.session == Some(if c.session.Some? then c.session.value else reply.grant.shared)
                  && t.cache.expired == (c.expired && c.session.Some?)
                else if Over(reply) then t.cache == Cache(map[], None, true)
                else t.cache == c)
  {
  }

  /** A call that gives up waiting gets an error and changes nothing. */
  lemma TimeoutIsAnError(s: State, i: nat)
    requires Enabled(s, TimedOut(i))
    ensures Step(s, TimedOut(i)) == s.(callers := s.callers[i := Done(Error)])
  {
  }

  /** A creation replaces the session, unmarks it and fills its slot; the other slots stay. A logout leaves nothing. */
  lemma CreatedAndLoggedOut(s: State, key: Key, grant: Grant)
    ensures Step(s, Created(key, grant)).cache == Cache(s.cache.slots[key := grant.slot], Some(grant.shared), false)
    ensures Step(s, LoggedOut).cache == Cache(map[], None, false)
  {
  }

  // ------------------------------------------------------------ how long a slot is served

  /** The event writes the slot of the key, or all slots. */
  predicate Writes(s: State, e: Event, key: Key)
    requires Enabled(s, e)
  {
    match e
    case Answered(i, reply) => Over(reply) || (reply.Renewed? && s.callers[i].key == key)
    case Created(k, _) => k == key
    case LoggedOut => true
    case _ => false
  }

  lemma {:induction false} SlotStays(trace: seq<State>, events: seq<Event>, from: nat, k: nat, key: Key, slot: Slot)
    requires IsRun(trace, events) && from <= k < |trace|
    requires key in trace[from].cache.slots && trace[from].cache.slots[key] == slot
    requires forall j :: from <= j < k ==> !Writes(trace[j], events[j], key)
    ensures key in trace[k].cache.slots && trace[k].cache.slots[key] == slot
  {
    if from < k {
      SlotStays(trace, events, from, k - 1, key, slot);
    }
  }

  /**
   * A granted token is served again: after a call was granted a token, a call for the same slot gets that very
   * token for as long as more than 60 seconds of it are left and nothing wrote the slot, whatever others do.
   */
  lemma GrantedIsServed(trace: seq<State>, events: seq<Event>, from: nat, k: nat, grant: Grant)
    requires IsRun(trace, events) && from < k < |events|
    requires events[from].Answered? && events[from].reply == Renewed(grant)
    requires events[k].Call? && events[k].key == trace[from].callers[events[from].caller].key
    requires forall j :: from < j < k ==> !Writes(trace[j], events[j], events[k].key)
    requires grant.slot.expiresAt * 1000 - events[k].now > 60_000
    ensures trace[k + 1].callers == trace[k].callers + [Done(Token(grant.slot))]
  {
    ReplyIsStoredExactly(trace[from], events[from].caller, events[from].reply, events[k].key);
    SlotStays(trace, events, from + 1, k, events[k].key, grant.slot);
    CallAnswersExactly(trace[k], events[k].key, events[k].now, grant.slot);
  }

  // ------------------------------------------------------------ stores dropped while callers wait

  /** The event drops all stores. */
  predicate Drops(e: Event) {
    e.LoggedOut? || (e.Answered? && Over(e.reply))
  }

  /** A call that a run keeps waiting. */
  ghost predicate WaitsFrom(trace: seq<State>, events: seq<Event>, from: nat, k: nat, i: nat)
    requires IsRun(trace, events)
  {
    && from < k < |trace| && events[from].Call? && i == |trace[from].callers|
    && forall j :: from < j <= k ==> i < |trace[j].callers| && trace[j].callers[i].Waiting?
  }

  /**
   * A waiting call loses its store exactly when stores were dropped meanwhile, and only in memory: there it
   * is never answered from what is stored afterwards, in local storage it is.
   */
  lemma {:induction false} AttachedExactly(trace: seq<State>, events: seq<Event>, from: nat, k: nat, i: nat)
    requires IsRun(trace, events) && WaitsFrom(trace, events, from, k, i)
    ensures trace[k].inMemory == trace[from].inMemory
    ensures trace[k].callers[i] == Waiting(events[from].key,
              !(trace[from].inMemory && exists j :: from < j < k && Drops(events[j])))
  {
    if from + 1 < k {
      AttachedExactly(trace, events, from, k - 1, i);
      assert WaitsFrom(trace, events, from, k - 1, i);
      assert trace[k] == Step(trace[k - 1], events[k - 1]);
    }
  }
}
