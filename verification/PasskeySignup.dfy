/**
 * The interrupted signup of src/passkey/PasskeyApiClient.ts. `signup` may stop
 * for identifier verification and keep a pending session; `continueSignup` takes
 * it, may prompt for a passkey, and exchanges it for tokens. Calls are suspended
 * at the prompt and at the exchange, so any number of them may overlap.
 */
module PasskeySignup {
  import opened Prelude

  /** A session awaiting its codes; `id` numbers the signup it came from. */
  datatype Pending = Pending(
    id: nat, authSession: string, publicKey: string, required: seq<string>, credential: Option<string>)

  datatype Challenge = Challenge(authSession: string, publicKey: string, required: seq<string>)

  datatype CeremonyResult = Created(credential: string) | Cancelled | Threw

  datatype ExchangeResult = Tokens | Retry(authSession: string, required: seq<string>) | Fatal

  datatype Outcome =
    | NoPendingSignup
    | MissingCode(missing: seq<string>)
    | CeremonyError
    | SignedUp
    | RetryableError
    | FatalError

  /** Where a `continueSignup` call stands: waiting at one of its two awaits, or settled. */
  datatype Call =
    | AtCeremony(pending: Pending)
    | AtExchange(pending: Pending, credential: string)
    | Done(outcome: Outcome)

  /** The identifiers for which no code, or an empty one, was passed. */
  function Missing(required: seq<string>, codes: map<string, string>): seq<string> {
    if required == [] then []
    else
      var rest := Missing(required[1..], codes);
      if required[0] in codes && codes[required[0]] != "" then rest else [required[0]] + rest
  }

  datatype Effect = Effect(slot: Option<Pending>, call: Call)

  /** The part of `continueSignup` before its first await. */
  function Begin(slot: Option<Pending>, codes: map<string, string>): Effect {
    if slot.None? then Effect(slot, Done(NoPendingSignup))
    else
      var missing := Missing(slot.value.required, codes);
      if missing != [] then Effect(slot, Done(MissingCode(missing)))
      else Effect(None, Resume(slot.value))
  }

  function Resume(pending: Pending): Call {
    if pending.credential.Some? then AtExchange(pending, pending.credential.value) else AtCeremony(pending)
  }

  function AfterCeremony(slot: Option<Pending>, pending: Pending, result: CeremonyResult): Effect {
    if result.Created? then Effect(slot, AtExchange(pending, result.credential))
    else Effect(Some(pending), Done(CeremonyError))
  }

  function AfterExchange(slot: Option<Pending>, pending: Pending, credential: string, result: ExchangeResult): Effect {
    match result
    case Tokens => Effect(slot, Done(SignedUp))
    case Fatal => Effect(slot, Done(FatalError))
    case Retry(authSession, required) =>
      Effect(Some(pending.(authSession := authSession, required := required, credential := Some(credential))),
             Done(RetryableError))
  }

  class PasskeyApiClient {
    var pendingSignup: Option<Pending>

    constructor ()
      ensures pendingSignup == None
    {
      pendingSignup := None;
    }

    /** The start of `signup`, before the challenge is requested. */
    method SignupStarts()
      modifies this
      ensures pendingSignup == None
    {
      pendingSignup := None;
    }

    /** The challenge is back: the signup stops here exactly when some identifier must be verified. */
    method SignupChallenged(id: nat, challenge: Challenge) returns (interrupted: bool)
      modifies this
      ensures interrupted <==> challenge.required != []
      ensures interrupted ==>
        pendingSignup == Some(Pending(id, challenge.authSession, challenge.publicKey, challenge.required, None))
      ensures !interrupted ==> pendingSignup == old(pendingSignup)
    {
      if |challenge.required| > 0 {
        pendingSignup := Some(Pending(id, challenge.authSession, challenge.publicKey, challenge.required, None));
        return true;
      }
      interrupted := false;
    }

    method ContinueSignup(codes: map<string, string>) returns (call: Call)
      modifies this
      ensures Effect(pendingSignup, call) == Begin(old(pendingSignup), codes)
    {
      if pendingSignup.None? {
        return Done(NoPendingSignup);
      }
      var missing := Missing(pendingSignup.value.required, codes);
      if |missing| > 0 {
        return Done(MissingCode(missing));
      }
      var pending := pendingSignup.value;
      pendingSignup := None;
      if pending.credential.None? {
        return AtCeremony(pending);
      }
      call := AtExchange(pending, pending.credential.value);
    }

    method CeremonyReturns(pending: Pending, result: CeremonyResult) returns (call: Call)
      modifies this
      ensures Effect(pendingSignup, call) == AfterCeremony(old(pendingSignup), pending, result)
    {
      if !result.Created? {
        pendingSignup := Some(pending);
        return Done(CeremonyError);
      }
      call := AtExchange(pending, result.credential);
    }

    method ExchangeReturns(pending: Pending, credential: string, result: ExchangeResult) returns (call: Call)
      modifies this
      ensures Effect(pendingSignup, call) == AfterExchange(old(pendingSignup), pending, credential, result)
    {
      match result {
        case Tokens => call := Done(SignedUp);
        case Fatal => call := Done(FatalError);
        case Retry(authSession, required) =>
          pendingSignup := Some(
            pending.(authSession := authSession, required := required, credential := Some(credential)));
          call := Done(RetryableError);
      }
    }
  }

  // -------------------------------------------------------------------- runs

  /**
   * The slot, every `continueSignup` call so far, and three records of the run:
   * the passkeys created, the signups whose exchange settled, and the signups
   * whose pending session was overwritten.
   */
  datatype State = State(
    slot: Option<Pending>, calls: seq<Call>, next: nat,
    created: seq<(nat, string)>, settled: seq<nat>, dropped: seq<nat>)

  datatype Event =
    | SignupStart
    | SignupInterrupted(challenge: Challenge)
    | Continue(codes: map<string, string>)
    | CeremonyEnds(call: nat, ceremony: CeremonyResult)
    | ExchangeEnds(call: nat, exchange: ExchangeResult)

  function SlotIds(slot: Option<Pending>): seq<nat> {
    if slot.Some? then [slot.value.id] else []
  }

  predicate Enabled(s: State, e: Event) {
    match e
    case CeremonyEnds(i, _) => i < |s.calls| && s.calls[i].AtCeremony?
    case ExchangeEnds(i, _) => i < |s.calls| && s.calls[i].AtExchange?
    case _ => true
  }

  function Step(s: State, e: Event): State
    requires Enabled(s, e)
  {
    match e
    case SignupStart => s.(slot := None, dropped := s.dropped + SlotIds(s.slot))
    case SignupInterrupted(c) =>
      s.(slot := Some(Pending(s.next, c.authSession, c.publicKey, c.required, None)),
         next := s.next + 1, dropped := s.dropped + SlotIds(s.slot))
    case Continue(codes) =>
      var effect := Begin(s.slot, codes);
      s.(slot := effect.slot, calls := s.calls + [effect.call])
    case CeremonyEnds(i, result) =>
      var pending := s.calls[i].pending;
      var effect := AfterCeremony(s.slot, pending, result);
      s.(slot := effect.slot, calls := s.calls[i := effect.call],
         created := if result.Created? then s.created + [(pending.id, result.credential)] else s.created,
         dropped := if result.Created? then s.dropped else s.dropped + SlotIds(s.slot))
    case ExchangeEnds(i, result) =>
      var pending := s.calls[i].pending;
      var effect := AfterExchange(s.slot, pending, s.calls[i].credential, result);
      s.(slot := effect.slot, calls := s.calls[i := effect.call],
         settled := if result.Retry? then s.settled else s.settled + [pending.id],
         dropped := if result.Retry? then s.dropped + SlotIds(s.slot) else s.dropped)
  }

  ghost predicate IsRun(trace: seq<State>, events: seq<Event>) {
    && |trace| == |events| + 1
    && trace[0] == State(None, [], 0, [], [], [])
    && (forall k :: 0 <= k < |events| ==> Enabled(trace[k], events[k]) && trace[k + 1] == Step(trace[k], events[k]))
  }

  // --------------------------------------------------------------- ownership

  function Owns(c: Call, id: nat): nat {
    if !c.Done? && c.pending.id == id then 1 else 0
  }

  function Owners(calls: seq<Call>, id: nat): nat {
    if calls == [] then 0 else Owners(calls[..|calls| - 1], id) + Owns(calls[|calls| - 1], id)
  }

  function InSlot(slot: Option<Pending>, id: nat): nat {
    if slot.Some? && slot.value.id == id then 1 else 0
  }

  /** The places where a signup's session is: the slot, calls in flight, settled, or overwritten. */
  function Places(s: State, id: nat): nat {
    InSlot(s.slot, id) + Owners(s.calls, id) + multiset(s.settled)[id] + multiset(s.dropped)[id]
  }

  /** Each signup is in exactly one place, once. */
  ghost predicate Conserved(s: State) {
    forall id: nat :: Places(s, id) == if id < s.next then 1 else 0
  }

  lemma {:induction false} OwnersOfUpdate(calls: seq<Call>, i: nat, c: Call, id: nat)
    requires i < |calls|
    ensures Owners(calls[i := c], id) + Owns(calls[i], id) == Owners(calls, id) + Owns(c, id)
  {
    var n := |calls| - 1;
    if i < n {
      OwnersOfUpdate(calls[..n], i, c, id);
      assert calls[i := c][..n] == calls[..n][i := c];
    } else {
      assert calls[i := c][..n] == calls[..n];
    }
  }

  lemma OwnersOfLonger(calls: seq<Call>, c: Call, id: nat)
    ensures Owners(calls + [c], id) == Owners(calls, id) + Owns(c, id)
  {
    assert (calls + [c])[..|calls|] == calls;
  }

  lemma {:induction false} OwnsIsOwner(calls: seq<Call>, i: nat, id: nat)
    requires i < |calls|
    ensures Owns(calls[i], id) <= Owners(calls, id)
  {
    var n := |calls| - 1;
    if i < n {
      OwnsIsOwner(calls[..n], i, id);
    }
  }

  lemma {:induction false} TwoOwnersCountTwice(calls: seq<Call>, i: nat, j: nat, id: nat)
    requires i < j < |calls|
    ensures Owns(calls[i], id) + Owns(calls[j], id) <= Owners(calls, id)
  {
    var n := |calls| - 1;
    if j < n {
      TwoOwnersCountTwice(calls[..n], i, j, id);
    } else {
      OwnsIsOwner(calls[..n], i, id);
    }
  }

  lemma CeremonyMovesOne(s: State, i: nat, result: CeremonyResult, id: nat)
    requires Enabled(s, CeremonyEnds(i, result))
    ensures Places(Step(s, CeremonyEnds(i, result)), id) == Places(s, id)
  {
    OwnersOfUpdate(s.calls, i, AfterCeremony(s.slot, s.calls[i].pending, result).call, id);
  }

  lemma ExchangeMovesOne(s: State, i: nat, result: ExchangeResult, id: nat)
    requires Enabled(s, ExchangeEnds(i, result))
    ensures Places(Step(s, ExchangeEnds(i, result)), id) == Places(s, id)
  {
    OwnersOfUpdate(s.calls, i, AfterExchange(s.slot, s.calls[i].pending, s.calls[i].credential, result).call, id);
  }

  lemma StepMovesOne(s: State, e: Event, id: nat)
    requires Enabled(s, e)
    ensures Places(Step(s, e), id) == Places(s, id) + if e.SignupInterrupted? && id == s.next then 1 else 0
  {
    match e
    case SignupStart =>
    case SignupInterrupted(c) =>
    case Continue(codes) => OwnersOfLonger(s.calls, Begin(s.slot, codes).call, id);
    case CeremonyEnds(i, result) => CeremonyMovesOne(s, i, result, id);
    case ExchangeEnds(i, result) => ExchangeMovesOne(s, i, result, id);
  }

  lemma StepConserves(s: State, e: Event)
    requires Conserved(s) && Enabled(s, e)
    ensures Conserved(Step(s, e))
  {
    forall id: nat
      ensures Places(Step(s, e), id) == if id < Step(s, e).next then 1 else 0
    {
      StepMovesOne(s, e, id);
    }
  }

  // ---------------------------------------------------------------- passkeys

  ghost predicate MadeFor(s: State, id: nat, credential: string) {
    (id, credential) in s.created
  }

  /** A call at the prompt has no passkey yet; a call at the exchange presents the one made for its signup. */
  ghost predicate CallKeepsPasskey(s: State, c: Call) {
    match c
    case Done(_) => true
    case AtCeremony(p) => p.credential == None && forall k :: k in s.created ==> k.0 != p.id
    case AtExchange(p, credential) => MadeFor(s, p.id, credential)
  }

  ghost predicate SlotKeepsPasskey(s: State) {
    s.slot.Some? ==>
      match s.slot.value.credential
      case None => forall k :: k in s.created ==> k.0 != s.slot.value.id
      case Some(credential) => MadeFor(s, s.slot.value.id, credential)
  }

  ghost predicate OnePasskeyEach(s: State) {
    && (forall i, j :: 0 <= i < j < |s.created| ==> s.created[i].0 != s.created[j].0)
    && (forall k :: k in s.created ==> k.0 < s.next)
    && SlotKeepsPasskey(s)
    && (forall i :: 0 <= i < |s.calls| ==> CallKeepsPasskey(s, s.calls[i]))
  }

  /** The session a call holds is nowhere else. */
  lemma OwnsAlone(s: State, i: nat)
    requires Conserved(s) && i < |s.calls| && !s.calls[i].Done?
    ensures s.slot.Some? ==> s.slot.value.id != s.calls[i].pending.id
    ensures forall j :: 0 <= j < |s.calls| && j != i && !s.calls[j].Done? ==>
      s.calls[j].pending.id != s.calls[i].pending.id
    ensures s.calls[i].pending.id < s.next
  {
    var id := s.calls[i].pending.id;
    OwnsIsOwner(s.calls, i, id);
    assert Places(s, id) == 1;
    forall j | 0 <= j < |s.calls| && j != i && !s.calls[j].Done?
      ensures s.calls[j].pending.id != id
    {
      TwoOwnersCountTwice(s.calls, if i < j then i else j, if i < j then j else i, id);
    }
  }

  lemma SlotIsKnown(s: State)
    requires Conserved(s) && s.slot.Some?
    ensures s.slot.value.id < s.next
  {
    assert Places(s, s.slot.value.id) >= 1;
  }

  lemma StepKeepsPasskeys(s: State, e: Event)
    requires Conserved(s) && OnePasskeyEach(s) && Enabled(s, e)
    ensures OnePasskeyEach(Step(s, e))
  {
    var t := Step(s, e);
    match e
    case SignupStart =>
    case SignupInterrupted(c) =>
    case Continue(codes) =>
    case CeremonyEnds(i, result) =>
      OwnsAlone(s, i);
      assert CallKeepsPasskey(s, s.calls[i]);
      forall j | 0 <= j < |t.calls|
        ensures CallKeepsPasskey(t, t.calls[j])
      {
        assert CallKeepsPasskey(s, s.calls[j]);
      }
    case ExchangeEnds(i, result) =>
      assert CallKeepsPasskey(s, s.calls[i]);
      forall j | 0 <= j < |t.calls|
        ensures CallKeepsPasskey(t, t.calls[j])
      {
        assert CallKeepsPasskey(s, s.calls[j]);
      }
  }

  lemma {:induction false} RunKeepsSignups(trace: seq<State>, events: seq<Event>, k: nat)
    requires IsRun(trace, events) && k < |trace|
    ensures Conserved(trace[k]) && OnePasskeyEach(trace[k])
  {
    if k > 0 {
      RunKeepsSignups(trace, events, k - 1);
      StepConserves(trace[k - 1], events[k - 1]);
      StepKeepsPasskeys(trace[k - 1], events[k - 1]);
    }
  }

  /**
   * For any number of signups and of overlapping `continueSignup` calls: a pending
   * session is in the slot or owned by one call, never both and never twice; at
   * most one passkey is created for it; and every exchange presents that passkey.
   */
  lemma PendingSessionsAreLinear(trace: seq<State>, events: seq<Event>, k: nat, i: nat)
    requires IsRun(trace, events) && k < |trace| && i < |trace[k].calls| && !trace[k].calls[i].Done?
    ensures
      var s, call := trace[k], trace[k].calls[i];
      && (s.slot.Some? ==> s.slot.value.id != call.pending.id)
      && (forall j :: 0 <= j < |s.calls| && j != i && !s.calls[j].Done? ==> s.calls[j].pending.id != call.pending.id)
      && (forall a, b :: 0 <= a < b < |s.created| ==> s.created[a].0 != s.created[b].0)
      && (call.AtExchange? ==> (call.pending.id, call.credential) in s.created)
      && (call.AtCeremony? ==> forall passkey :: passkey in s.created ==> passkey.0 != call.pending.id)
  {
    RunKeepsSignups(trace, events, k);
    OwnsAlone(trace[k], i);
    assert CallKeepsPasskey(trace[k], trace[k].calls[i]);
  }

  // -------------------------------------------------------------- one signup

  /** Only `continueSignup` calls follow the first interruption. */
  predicate OneSignup(events: seq<Event>) {
    && events != [] && events[0].SignupInterrupted?
    && forall k :: 0 < k < |events| ==> !events[k].SignupInterrupted? && !events[k].SignupStart?
  }

  lemma {:induction false} NothingIsDropped(trace: seq<State>, events: seq<Event>, k: nat)
    requires IsRun(trace, events) && OneSignup(events) && 0 < k < |trace|
    ensures trace[k].next == 1 && trace[k].dropped == []
  {
    if k > 1 {
      var s, e := trace[k - 1], events[k - 1];
      NothingIsDropped(trace, events, k - 1);
      RunKeepsSignups(trace, events, k - 1);
      if e.CeremonyEnds? || e.ExchangeEnds? {
        OwnsAlone(s, e.call);
        if s.slot.Some? {
          SlotIsKnown(s);
        }
      }
    }
  }

  /**
   * After one interrupted signup the pending session is never lost: it waits in the
   * slot, or one call owns it, or one exchange has settled it, and these exclude one
   * another. At most one passkey exists.
   */
  lemma OneSignupIsNeverLost(trace: seq<State>, events: seq<Event>, k: nat)
    requires IsRun(trace, events) && OneSignup(events) && 0 < k < |trace|
    ensures InSlot(trace[k].slot, 0) + Owners(trace[k].calls, 0) + multiset(trace[k].settled)[0] == 1
    ensures forall i :: 0 <= i < |trace[k].calls| && !trace[k].calls[i].Done? ==> trace[k].calls[i].pending.id == 0
    ensures |trace[k].created| <= 1
  {
    var s := trace[k];
    NothingIsDropped(trace, events, k);
    RunKeepsSignups(trace, events, k);
    assert Places(s, 0) == 1;
    forall i | 0 <= i < |s.calls| && !s.calls[i].Done?
      ensures s.calls[i].pending.id == 0
    {
      OwnsAlone(s, i);
    }
    var ids := seq(|s.created|, i requires 0 <= i < |s.created| => s.created[i].0);
    forall id | id in ids
      ensures id in [0]
    {
      var i :| 0 <= i < |ids| && ids[i] == id;
      assert s.created[i] in s.created;
    }
    DistinctSubsetIsShorter(ids, [0]);
  }

  // ------------------------------------------------------------ what restores

  /**
   * In every run of one signup, however its calls overlap: when a call gets its answer the
   * pending session is back exactly on ceremony failure, cancellation or a retryable
   * exchange error. In the first two cases it is the very same, in the last the
   * next call will present the same passkey.
   */
  lemma RestoredExactly(trace: seq<State>, events: seq<Event>, k: nat)
    requires IsRun(trace, events) && OneSignup(events) && 0 < k < |events|
    requires events[k].CeremonyEnds? || events[k].ExchangeEnds?
    ensures
      var e, owner, restored := events[k], trace[k].calls[events[k].call], trace[k + 1].slot;
      && (restored.Some? <==>
            (e.CeremonyEnds? && !e.ceremony.Created?) || (e.ExchangeEnds? && e.exchange.Retry?))
      && (restored.Some? && e.CeremonyEnds? ==> restored == Some(owner.pending))
      && (restored.Some? && e.ExchangeEnds? ==> Resume(restored.value) == AtExchange(restored.value, owner.credential))
  {
    NothingIsDropped(trace, events, k);
    RunKeepsSignups(trace, events, k);
    OwnsAlone(trace[k], events[k].call);
    if trace[k].slot.Some? {
      SlotIsKnown(trace[k]);
    }
  }

  /**
   * A second signup started while a call of the first is at the prompt can lose its
   * session: when that prompt fails, the old session is written back over the new one.
   */
  lemma StaleRestoreDropsNewSignup(first: Challenge, second: Challenge, codes: map<string, string>)
    requires Missing(first.required, codes) == []
    ensures
      var s0 := Step(State(None, [], 0, [], [], []), SignupInterrupted(first));
      var s1 := Step(s0, Continue(codes));
      var s2 := Step(Step(s1, SignupStart), SignupInterrupted(second));
      && s2.slot.Some? && s2.slot.value.id == 1
      && Enabled(s2, CeremonyEnds(0, Cancelled))
      && Step(s2, CeremonyEnds(0, Cancelled)).slot == s0.slot
      && Step(s2, CeremonyEnds(0, Cancelled)).dropped == [1]
  {
  }

  /** The events that write the slot: a new signup, and whatever puts a session back. */
  predicate WritesSlot(e: Event) {
    || e.SignupStart? || e.SignupInterrupted?
    || (e.CeremonyEnds? && !e.ceremony.Created?) || (e.ExchangeEnds? && e.exchange.Retry?)
  }

  /** The places where a session can still be continued or has been completed. */
  function Reachable(s: State, id: nat): nat {
    InSlot(s.slot, id) + Owners(s.calls, id) + multiset(s.settled)[id]
  }

  /**
   * A step loses a signup, so that it is neither pending, nor owned by a call, nor settled, if and only if
   * that signup waits in the slot and the step writes the slot.
   */
  lemma LostExactly(s: State, e: Event, id: nat)
    requires Conserved(s) && Enabled(s, e) && Reachable(s, id) == 1
    ensures Reachable(Step(s, e), id) == 0 <==> InSlot(s.slot, id) == 1 && WritesSlot(e)
  {
    StepMovesOne(s, e, id);
    assert Places(s, id) == 1;
    if InSlot(s.slot, id) == 0 {
      assert multiset(Step(s, e).dropped)[id] == multiset(s.dropped)[id];
    }
  }

  // -------------------------------------------------------------- what calls answer

  /** Missing are exactly the required identifiers with no code, or an empty one. */
  lemma {:induction false} MissingExactly(required: seq<string>, codes: map<string, string>, identifier: string)
    ensures identifier in Missing(required, codes)
      <==> identifier in required && (identifier !in codes || codes[identifier] == "")
  {
    if required != [] {
      MissingExactly(required[1..], codes, identifier);
      assert required == [required[0]] + required[1..];
    }
  }

  /** Every required identifier has a code. */
  predicate AllGiven(required: seq<string>, codes: map<string, string>) {
    forall identifier :: identifier in required ==> identifier in codes && codes[identifier] != ""
  }

  lemma NoneMissingExactly(required: seq<string>, codes: map<string, string>)
    ensures Missing(required, codes) == [] <==> AllGiven(required, codes)
  {
    forall identifier
      ensures identifier in Missing(required, codes)
        <==> identifier in required && (identifier !in codes || codes[identifier] == "")
    {
      MissingExactly(required, codes, identifier);
    }
    if Missing(required, codes) != [] {
      assert Missing(required, codes)[0] in Missing(required, codes);
    }
  }

  /**
   * What a `continueSignup` call does, in any state: without a pending signup it says so; with codes missing it
   * names them and keeps the session; otherwise it takes the session, to the prompt if there is no passkey
   * yet and straight to the exchange if there is.
   */
  lemma ContinueExactly(s: State, codes: map<string, string>)
    ensures var t := Step(s, Continue(codes));
            && |t.calls| == |s.calls| + 1 && t.calls[..|s.calls|] == s.calls
            && var call := t.calls[|s.calls|];
               if s.slot.None? then t.slot.None? && call == Done(NoPendingSignup)
               else if !AllGiven(s.slot.value.required, codes) then
                 && t.slot == s.slot && call.Done? && call.outcome.MissingCode?
                 && forall identifier :: identifier in call.outcome.missing
                      <==> identifier in s.slot.value.required && (identifier !in codes || codes[identifier] == "")
               else
                 && t.slot.None?
                 && call == match s.slot.value.credential
                            case None => AtCeremony(s.slot.value)
                            case Some(credential) => AtExchange(s.slot.value, credential)
  {
    if s.slot.Some? {
      NoneMissingExactly(s.slot.value.required, codes);
      forall identifier
        ensures identifier in Missing(s.slot.value.required, codes)
          <==> identifier in s.slot.value.required && (identifier !in codes || codes[identifier] == "")
      {
        MissingExactly(s.slot.value.required, codes, identifier);
      }
    }
  }

  /** The outcome of a call says how it ended. */
  lemma OutcomesExactly(s: State, e: Event)
    requires Enabled(s, e) && (e.CeremonyEnds? || e.ExchangeEnds?)
    ensures var outcome := Step(s, e).calls[e.call];
            && (outcome == Done(CeremonyError) <==> e.CeremonyEnds? && !e.ceremony.Created?)
            && (outcome == Done(SignedUp) <==> e.ExchangeEnds? && e.exchange.Tokens?)
            && (outcome == Done(FatalError) <==> e.ExchangeEnds? && e.exchange.Fatal?)
            && (outcome == Done(RetryableError) <==> e.ExchangeEnds? && e.exchange.Retry?)
            && (!outcome.Done? <==> e.CeremonyEnds? && e.ceremony.Created?)
            && (!outcome.Done? ==> outcome == AtExchange(s.calls[e.call].pending, e.ceremony.credential))
  {
  }

  /** An interrupted signup keeps what the challenge said. */
  lemma InterruptedIsPending(s: State, c: Challenge)
    ensures Step(s, SignupInterrupted(c)).slot
         == Some(Pending(s.next, c.authSession, c.publicKey, c.required, None))
  {
  }

  /**
   * After a retryable error the signup goes on from the error's answer: with codes for what that now requires,
   * the next call presents the same passkey, with the new session and no second prompt.
   */
  lemma RetryGoesOn(s: State, i: nat, authSession: string, required: seq<string>, codes: map<string, string>)
    requires Enabled(s, ExchangeEnds(i, Retry(authSession, required))) && AllGiven(required, codes)
    ensures var p, credential := s.calls[i].pending, s.calls[i].credential;
            var t := Step(Step(s, ExchangeEnds(i, Retry(authSession, required))), Continue(codes));
            && t.slot.None? && |t.calls| == |s.calls| + 1
            && t.calls[|s.calls|]
               == AtExchange(Pending(p.id, authSession, p.publicKey, required, Some(credential)), credential)
  {
    ContinueExactly(Step(s, ExchangeEnds(i, Retry(authSession, required))), codes);
  }
}
