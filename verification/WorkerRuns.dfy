/** Whole runs of the worker: request handlers and revocations suspend at their fetches and interleave freely. */
module WorkerRuns {
  import opened Prelude
  import opened Text
  import opened TokenWorker
  import Revocation

  /** A request handler between its two pieces. */
  datatype Waiting = Waiting(m: Message, captured: Option<string>)

  /**
   * `issued` are the refresh tokens the server ever returned. `spent` are those that a handler captured
   * and saw replaced by its answer, and those that were revoked.
   */
  datatype System = System(
    vault: Vault,
    waiting: map<nat, Waiting>,
    revoking: map<nat, seq<string>>,
    issued: set<string>,
    spent: set<string>)

  const START := System(EMPTY_VAULT, map[], map[], {}, {})

  datatype Event =
    | Begin(id: nat, m: Message)
    | End(id: nat, r: Response)
    | BeginRevoke(id: nat, audience: string)
    | RevokeAnswer(id: nat, accepted: bool)
    | ClearAll

  predicate Brings(r: Response) {
    r.Json? && Truthy(r.refreshToken)
  }

  /** All requests share the client's `useMrrt` setting, and the server never returns a token twice. */
  ghost predicate Fair(useMrrt: bool, s: System, ev: Event) {
    match ev
    case Begin(_, m) => m.useMrrt == useMrrt
    case End(_, r) => Brings(r) ==> r.refreshToken.value !in s.issued
    case _ => true
  }

  /** The token that an answer replaces in the store. */
  function SpentBy(w: Waiting, r: Response): set<string> {
    if Brings(r) && !w.m.skipTokenStorage && Truthy(w.captured) then {w.captured.value} else {}
  }

  function Next(s: System, ev: Event): System {
    match ev
    case Begin(id, m) =>
      if MissesToken(s.vault, m) then s else s.(waiting := s.waiting[id := Waiting(m, Captured(s.vault, m))])
    case End(id, r) =>
      if id !in s.waiting then s
      else
        var w := s.waiting[id];
        s.(vault := Completed(s.vault, w.m, w.captured, r),
           waiting := s.waiting - {id},
           issued := s.issued + (if Brings(r) then {r.refreshToken.value} else {}),
           spent := s.spent + SpentBy(w, r))
    case BeginRevoke(id, audience) => s.(revoking := s.revoking[id := TokensByAudience(s.vault, audience)])
    case RevokeAnswer(id, accepted) =>
      if id !in s.revoking || s.revoking[id] == [] then s
      else if !accepted then s.(revoking := s.revoking - {id})
      else
        var token := s.revoking[id][0];
        s.(vault := DeleteByValue(s.vault, token),
           revoking := s.revoking[id := s.revoking[id][1..]],
           spent := s.spent + {token})
    case ClearAll => s.(vault := EMPTY_VAULT)
  }

  function After(s: System, evs: seq<Event>): System
    decreases |evs|
  {
    if evs == [] then s else After(Next(s, evs[0]), evs[1..])
  }

  ghost predicate FairRun(useMrrt: bool, s: System, evs: seq<Event>)
    decreases |evs|
  {
    evs != [] ==> Fair(useMrrt, s, evs[0]) && FairRun(useMrrt, Next(s, evs[0]), evs[1..])
  }

  // ------------------------------------------------------- what a handler captures and stores

  /** A stored entry of the audience, other than the one for the latest token, covers the scopes. */
  ghost predicate CoveredByStored(v: Vault, audience: string, scope: string) {
    exists key :: key in v.tokens && key != "latest_refresh_token" && audience + "|" <= key
      && |Split(key, "|")| > 1 && forall s :: s in Split(scope, " ") ==> s in Split(Split(key, "|")[1], " ")
  }

  /**
   * The token a refresh is sent with: the one stored for its audience and scope. If there is none, the
   * latest one with multi-resource refresh, unless a stored entry of the audience covers the scopes already.
   */
  lemma RefreshCapturesExactly(v: Vault, m: Message, token: string)
    requires m.kind.RefreshGrant? && token != ""
    ensures var own, latest := Lookup(v, m.audience + "|" + m.scope), Lookup(v, "latest_refresh_token");
            Captured(v, m) == Some(token)
            <==> own == Some(token)
                 || (!Truthy(own) && m.useMrrt && latest == Some(token) && !CoveredByStored(v, m.audience, m.scope))
    ensures MissesToken(v, m) <==> !Truthy(Captured(v, m))
  {
    assert Downscopes(v, m.scope, m.audience) <==> CoveredByStored(v, m.audience, m.scope);
  }

  /** The completion of an MFA challenge does not look at scopes, and other requests capture nothing. */
  lemma OthersCaptureExactly(v: Vault, m: Message, token: string)
    requires !m.kind.RefreshGrant? && token != ""
    ensures var own, latest := Lookup(v, m.audience + "|" + m.scope), Lookup(v, "latest_refresh_token");
            Captured(v, m) == Some(token)
            <==> m.kind.MfaCompletion?
                 && (own == Some(token) || (!Truthy(own) && m.useMrrt && latest == Some(token)))
    ensures !MissesToken(v, m)
  {
  }

  /** An answer is stored: it was not lost, and the message does not keep its token out of the store. */
  predicate Stores(m: Message, r: Response) {
    r.Json? && !m.skipTokenStorage
  }

  /**
   * The store after an answer, entry by entry. A new token goes under the request's own key; with multi-resource
   * refresh it also becomes the latest one and replaces the captured token wherever that is held. Without one
   * the own entry goes, unless it is to be preserved. Every other entry stays as it was.
   */
  lemma CompletedExactly(v: Vault, m: Message, captured: Option<string>, r: Response, key: string)
    ensures var own := m.audience + "|" + m.scope;
            Lookup(Completed(v, m, captured, r), key)
            == if Stores(m, r) && Brings(r)
                  && (key == own || (m.useMrrt && (key == "latest_refresh_token"
                                                   || (captured.Some? && Lookup(v, key) == captured))))
               then r.refreshToken
               else if Stores(m, r) && !Brings(r) && !m.preserveRefreshToken && key == own then None
               else Lookup(v, key)
  {
  }

  /** A token that comes back is sent with the next refresh for the same audience and scope. */
  lemma NextRefreshSendsNewToken(s: System, id: nat, r: Response, next: nat, m: Message)
    requires id in s.waiting && Stores(s.waiting[id].m, r) && Brings(r)
    requires m.kind.RefreshGrant? && m.audience == s.waiting[id].m.audience && m.scope == s.waiting[id].m.scope
    ensures var s' := Next(Next(s, End(id, r)), Begin(next, m));
            next in s'.waiting && s'.waiting[next] == Waiting(m, r.refreshToken)
  {
    var w := s.waiting[id];
    CompletedExactly(s.vault, w.m, w.captured, r, m.audience + "|" + m.scope);
    RefreshCapturesExactly(Completed(s.vault, w.m, w.captured, r), m, r.refreshToken.value);
  }

  /** A handler is over with its answer: another one for it changes nothing. */
  lemma AnsweredOnce(s: System, id: nat, r: Response, again: Response)
    ensures Next(Next(s, End(id, r)), End(id, again)) == Next(s, End(id, r))
  {
  }

  /** With multi-resource refresh also for any other audience or scopes that have no token and are not covered. */
  lemma OtherRefreshSendsLatestToken(s: System, id: nat, r: Response, next: nat, m: Message)
    requires id in s.waiting && s.waiting[id].m.useMrrt && Stores(s.waiting[id].m, r) && Brings(r)
    requires m.kind.RefreshGrant? && m.useMrrt
    requires var v := Next(s, End(id, r)).vault;
             !Truthy(Lookup(v, m.audience + "|" + m.scope)) && !CoveredByStored(v, m.audience, m.scope)
    ensures var s' := Next(Next(s, End(id, r)), Begin(next, m));
            next in s'.waiting && s'.waiting[next] == Waiting(m, r.refreshToken)
  {
    var w := s.waiting[id];
    CompletedExactly(s.vault, w.m, w.captured, r, "latest_refresh_token");
    RefreshCapturesExactly(Completed(s.vault, w.m, w.captured, r), m, r.refreshToken.value);
  }

  // ----------------------------------------------------------------- the invariant

  ghost predicate Stored(v: Vault, token: string) {
    exists key :: key in v.tokens && v.tokens[key] == token
  }

  ghost predicate Ordered(v: Vault) {
    forall key :: key in v.tokens <==> key in v.order
  }

  ghost predicate KnownTokens(s: System) {
    && Ordered(s.vault)
    && (forall key :: key in s.vault.tokens ==> s.vault.tokens[key] in s.issued)
    && (forall id :: id in s.waiting && s.waiting[id].captured.Some? ==> s.waiting[id].captured.value in s.issued)
    && (forall id, t :: id in s.revoking && t in s.revoking[id] ==> t in s.issued)
    && s.spent <= s.issued
  }

  ghost predicate NothingSpentStored(s: System) {
    forall key :: key in s.vault.tokens ==> s.vault.tokens[key] !in s.spent
  }

  /** Without multi-resource refresh a token lives under one key only, that of the requests that capture it. */
  ghost predicate OneHome(s: System) {
    && (forall k, k' :: k in s.vault.tokens && k' in s.vault.tokens && s.vault.tokens[k] == s.vault.tokens[k'] ==>
      k == k')
    && (forall id, k :: id in s.waiting && k in s.vault.tokens && s.waiting[id].captured == Some(s.vault.tokens[k]) ==>
         k == StoreKey(s.waiting[id].m.audience, s.waiting[id].m.scope))
  }

  ghost predicate Good(useMrrt: bool, s: System) {
    && KnownTokens(s) && NothingSpentStored(s)
    && (forall id :: id in s.waiting ==> s.waiting[id].m.useMrrt == useMrrt)
    && (!useMrrt ==> OneHome(s))
  }

  lemma CapturedIsStored(v: Vault, m: Message)
    ensures Captured(v, m).Some? ==> Stored(v, Captured(v, m).value)
    ensures !m.useMrrt && Captured(v, m).Some? ==> Captured(v, m) == Lookup(v, StoreKey(m.audience, m.scope))
  {
  }

  lemma BeginStaysGood(useMrrt: bool, s: System, id: nat, m: Message)
    requires Good(useMrrt, s) && m.useMrrt == useMrrt
    ensures Good(useMrrt, Next(s, Begin(id, m)))
  {
    CapturedIsStored(s.vault, m);
  }

  /** What the second piece of a handler leaves in the store. */
  lemma {:induction false} DroppedEffect(v: Vault, keys: seq<string>, token: string)
    ensures forall key :: key in Dropped(v, keys, token) <==>
      key in keys && !(key in v.tokens && v.tokens[key] == token)
  {
    if keys != [] {
      DroppedEffect(v, keys[1..], token);
      assert keys == [keys[0]] + keys[1..];
    }
  }

  lemma DeleteByValueKeepsOrdered(v: Vault, token: string)
    requires Ordered(v)
    ensures Ordered(DeleteByValue(v, token))
  {
    DroppedEffect(v, v.order, token);
  }

  lemma CompletedKeepsOrdered(v: Vault, m: Message, captured: Option<string>, r: Response)
    requires Ordered(v)
    ensures Ordered(Completed(v, m, captured, r))
  {
  }

  lemma CompletedTokens(v: Vault, m: Message, captured: Option<string>, r: Response)
    ensures var v' := Completed(v, m, captured, r);
            var key := StoreKey(m.audience, m.scope);
            && (forall k :: k in v'.tokens ==>
                 || (k in v.tokens && v'.tokens[k] == v.tokens[k])
                 || (Brings(r) && !m.skipTokenStorage && v'.tokens[k] == r.refreshToken.value
                   && (k == key || m.useMrrt)))
            && (Brings(r) && !m.skipTokenStorage ==>
              forall k :: k in v'.tokens && v'.tokens[k] != r.refreshToken.value ==>
                 if m.useMrrt then captured != Some(v'.tokens[k]) else k != key)
  {
  }

  lemma EndStaysGood(useMrrt: bool, s: System, id: nat, r: Response)
    requires Good(useMrrt, s) && id in s.waiting && Fair(useMrrt, s, End(id, r))
    ensures Good(useMrrt, Next(s, End(id, r)))
  {
    var w := s.waiting[id];
    CompletedTokens(s.vault, w.m, w.captured, r);
    CompletedKeepsOrdered(s.vault, w.m, w.captured, r);
    var s' := Next(s, End(id, r));
    assert KnownTokens(s');
    assert NothingSpentStored(s');
  }

  lemma {:induction false} HeldTokensAreStored(v: Vault, keys: seq<string>, audience: string)
    ensures forall t :: t in HeldTokens(v, keys, audience) ==> Stored(v, t)
  {
    if keys != [] {
      HeldTokensAreStored(v, keys[1..], audience);
    }
  }

  /** What a revocation captures: the tokens stored for the audience, and no others, once each. */
  lemma CapturedForRevocation(v: Vault, audience: string, token: string)
    requires Ordered(v)
    ensures token in TokensByAudience(v, audience)
      <==> exists key :: key in v.tokens && audience + "|" <= key && v.tokens[key] == token
    ensures Distinct(TokensByAudience(v, audience))
  {
    DedupeIsDistinct(HeldTokens(v, v.order, audience));
    HeldAreOfAudience(v, v.order, audience, token);
    if key :| key in v.tokens && audience + "|" <= key && v.tokens[key] == token {
      HeldTokensAreListed(v, v.order, audience, key);
    }
  }

  lemma {:induction false} HeldAreOfAudience(v: Vault, keys: seq<string>, audience: string, token: string)
    ensures token in HeldTokens(v, keys, audience) ==>
              exists key :: key in v.tokens && audience + "|" <= key && v.tokens[key] == token
  {
    if keys != [] {
      HeldAreOfAudience(v, keys[1..], audience, token);
    }
  }

  lemma RevocationStaysGood(useMrrt: bool, s: System, ev: Event)
    requires Good(useMrrt, s) && (ev.BeginRevoke? || ev.RevokeAnswer? || ev.ClearAll?)
    ensures Good(useMrrt, Next(s, ev))
  {
    if ev.BeginRevoke? {
      HeldTokensAreStored(s.vault, s.vault.order, ev.audience);
    } else if ev.RevokeAnswer? && ev.id in s.revoking && s.revoking[ev.id] != [] {
      DeleteByValueKeepsOrdered(s.vault, s.revoking[ev.id][0]);
    }
  }

  lemma StepStaysGood(useMrrt: bool, s: System, ev: Event)
    requires Good(useMrrt, s) && Fair(useMrrt, s, ev)
    ensures Good(useMrrt, Next(s, ev))
  {
    match ev
    case Begin(id, m) => BeginStaysGood(useMrrt, s, id, m);
    case End(id, r) =>
      if id in s.waiting {
        EndStaysGood(useMrrt, s, id, r);
      }
    case _ => RevocationStaysGood(useMrrt, s, ev);
  }

  lemma {:induction false} RunStaysGood(useMrrt: bool, s: System, evs: seq<Event>)
    requires Good(useMrrt, s) && FairRun(useMrrt, s, evs)
    ensures Good(useMrrt, After(s, evs))
    decreases |evs|
  {
    if evs != [] {
      StepStaysGood(useMrrt, s, evs[0]);
      RunStaysGood(useMrrt, Next(s, evs[0]), evs[1..]);
    }
  }

  /**
   * Spent tokens never come back. However request handlers, revocations and clears interleave, no entry
   * of the store, the one for the latest token included, holds a token that was replaced or revoked,
   * and no handler that starts afterwards captures one.
   */
  lemma SpentTokensNeverReturn(useMrrt: bool, evs: seq<Event>, m: Message)
    requires FairRun(useMrrt, START, evs)
    ensures var s := After(START, evs);
            && (forall key :: key in s.vault.tokens ==> s.vault.tokens[key] !in s.spent)
            && (Captured(s.vault, m).Some? ==> Captured(s.vault, m).value !in s.spent)
  {
    RunStaysGood(useMrrt, START, evs);
    CapturedIsStored(After(START, evs).vault, m);
  }

  // ------------------------------------------------------- revocation among other handlers

  /** An accepted answer deletes exactly the entries that then hold the revoked token. */
  lemma RevokeAnswerIsExact(s: System, id: nat)
    requires id in s.revoking && s.revoking[id] != []
    ensures var token, v' := s.revoking[id][0], Next(s, RevokeAnswer(id, true)).vault;
            && (forall key :: key in v'.tokens <==> key in s.vault.tokens && s.vault.tokens[key] != token)
            && (forall key :: key in v'.tokens ==> v'.tokens[key] == s.vault.tokens[key])
    ensures Next(s, RevokeAnswer(id, false)).vault == s.vault
  {
  }

  /** The handler has revoked the first `n` of its tokens, and has the others still to do. */
  predicate Progress(s: System, id: nat, tokens: seq<string>) {
    id in s.revoking ==>
      && |s.revoking[id]| <= |tokens| && s.revoking[id] == tokens[|tokens| - |s.revoking[id]|..]
      && forall t :: t in tokens[..|tokens| - |s.revoking[id]|] ==> t in s.spent
  }

  lemma StepProgress(s: System, ev: Event, id: nat, tokens: seq<string>)
    requires Progress(s, id, tokens) && !(ev.BeginRevoke? && ev.id == id)
    ensures Progress(Next(s, ev), id, tokens)
  {
    if ev.RevokeAnswer? && ev.id == id && id in s.revoking && s.revoking[id] != [] && ev.accepted {
      var done := |tokens| - |s.revoking[id]|;
      assert tokens[..done + 1] == tokens[..done] + [tokens[done]];
    }
  }

  lemma {:induction false} RunProgress(s: System, evs: seq<Event>, id: nat, tokens: seq<string>)
    requires Progress(s, id, tokens)
    requires forall ev :: ev in evs ==> !(ev.BeginRevoke? && ev.id == id)
    ensures Progress(After(s, evs), id, tokens)
    decreases |evs|
  {
    if evs != [] {
      assert evs[0] in evs;
      StepProgress(s, evs[0], id, tokens);
      RunProgress(Next(s, evs[0]), evs[1..], id, tokens);
    }
  }

  /** What is left to do is the end of the list, and no entry holds a token of what is done. */
  ghost predicate DoneIsGone(s: System, id: nat, tokens: seq<string>) {
    id in s.revoking ==>
      && |s.revoking[id]| <= |tokens| && s.revoking[id] == tokens[|tokens| - |s.revoking[id]|..]
      && forall key :: key in s.vault.tokens ==> s.vault.tokens[key] !in tokens[..|tokens| - |s.revoking[id]|]
  }

  lemma DoneIsUnstored(useMrrt: bool, s: System, id: nat, tokens: seq<string>)
    requires Good(useMrrt, s) && Progress(s, id, tokens)
    ensures DoneIsGone(s, id, tokens)
  {
  }

  lemma NothingDoneYet(s: System, id: nat, audience: string)
    ensures Progress(Next(s, BeginRevoke(id, audience)), id, TokensByAudience(s.vault, audience))
  {
  }

  lemma OneThenRest(s: System, ev: Event, evs: seq<Event>)
    ensures After(s, [ev] + evs) == After(Next(s, ev), evs)
  {
    assert ([ev] + evs)[1..] == evs;
  }

  /**
   * A revocation works through its list whatever other handlers, revocations and clears do between its
   * requests: the tokens it captured are a done part and a part to do, and no entry holds a token of the
   * done part. When all requests were accepted, none of the captured tokens is stored.
   */
  lemma RevocationHoldsAmongOthers(useMrrt: bool, before: seq<Event>, id: nat, audience: string, evs: seq<Event>)
    requires FairRun(useMrrt, START, before)
    requires FairRun(useMrrt, After(START, before), [BeginRevoke(id, audience)] + evs)
    requires forall ev :: ev in evs ==> !(ev.BeginRevoke? && ev.id == id)
    ensures DoneIsGone(After(After(START, before), [BeginRevoke(id, audience)] + evs), id,
                       TokensByAudience(After(START, before).vault, audience))
  {
    RunStaysGood(useMrrt, START, before);
    RevocationHolds(useMrrt, After(START, before), id, audience, evs);
  }

  lemma RevocationHolds(useMrrt: bool, s: System, id: nat, audience: string, evs: seq<Event>)
    requires Good(useMrrt, s) && FairRun(useMrrt, s, [BeginRevoke(id, audience)] + evs)
    requires forall ev :: ev in evs ==> !(ev.BeginRevoke? && ev.id == id)
    ensures DoneIsGone(After(s, [BeginRevoke(id, audience)] + evs), id, TokensByAudience(s.vault, audience))
  {
    var tokens := TokensByAudience(s.vault, audience);
    RunStaysGood(useMrrt, s, [BeginRevoke(id, audience)] + evs);
    NothingDoneYet(s, id, audience);
    RunProgress(Next(s, BeginRevoke(id, audience)), evs, id, tokens);
    OneThenRest(s, BeginRevoke(id, audience), evs);
    DoneIsUnstored(useMrrt, After(s, [BeginRevoke(id, audience)] + evs), id, tokens);
  }

  // ------------------------------------------------------- revocation, uninterrupted

  /** The answers to a revocation's requests, one after another. */
  function Answers(id: nat, outcomes: seq<bool>): seq<Event> {
    if outcomes == [] then [] else [RevokeAnswer(id, outcomes[0])] + Answers(id, outcomes[1..])
  }

  /** Exactly the entries that hold one of these tokens are gone, and the others unchanged. */
  ghost predicate Without(v: Vault, v': Vault, tokens: seq<string>) {
    && Ordered(v')
    && (forall key :: key in v'.tokens <==> key in v.tokens && v.tokens[key] !in tokens)
    && (forall key :: key in v'.tokens ==> v'.tokens[key] == v.tokens[key])
  }

  lemma WithoutOneMore(v: Vault, v1: Vault, v2: Vault, token: string, rest: seq<string>)
    requires Without(v, v1, [token]) && Without(v1, v2, rest)
    ensures Without(v, v2, [token] + rest)
  {
  }

  lemma AcceptedAnswer(s: System, id: nat)
    requires Ordered(s.vault) && id in s.revoking && s.revoking[id] != []
    ensures Without(s.vault, Next(s, RevokeAnswer(id, true)).vault, [s.revoking[id][0]])
  {
    RevokeAnswerIsExact(s, id);
    DeleteByValueKeepsOrdered(s.vault, s.revoking[id][0]);
  }

  /** A handler that is over, because it failed or has nothing left, takes no further answer. */
  lemma {:induction false} OverIsOver(s: System, id: nat, outcomes: seq<bool>)
    requires id !in s.revoking || s.revoking[id] == []
    ensures After(s, Answers(id, outcomes)) == s
  {
    if outcomes != [] {
      assert Answers(id, outcomes)[1..] == Answers(id, outcomes[1..]);
      OverIsOver(s, id, outcomes[1..]);
    }
  }

  /** What is left to do: nothing after a failure, else what has no answer yet. */
  predicate StandsAt(s: System, id: nat, tokens: seq<string>, n: nat, answered: nat)
    requires n <= |tokens|
  {
    if n < |tokens| && n < answered then id !in s.revoking else id in s.revoking && s.revoking[id] == tokens[n..]
  }

  lemma {:induction false} AnswersRevoke(s: System, id: nat, outcomes: seq<bool>)
    requires Ordered(s.vault) && id in s.revoking
    ensures var tokens, s' := s.revoking[id], After(s, Answers(id, outcomes));
            var n := Revocation.Accepted(tokens, outcomes);
            Without(s.vault, s'.vault, tokens[..n]) && StandsAt(s', id, tokens, n, |outcomes|)
    decreases |outcomes|
  {
    var tokens := s.revoking[id];
    var n := Revocation.Accepted(tokens, outcomes);
    if tokens == [] {
      OverIsOver(s, id, outcomes);
    } else if outcomes != [] {
      var s1 := Next(s, RevokeAnswer(id, outcomes[0]));
      assert Answers(id, outcomes)[1..] == Answers(id, outcomes[1..]);
      if outcomes[0] {
        AcceptedAnswer(s, id);
        AnswersRevoke(s1, id, outcomes[1..]);
        WithoutOneMore(s.vault, s1.vault, After(s1, Answers(id, outcomes[1..])).vault, tokens[0], tokens[1..][..n - 1]);
        assert tokens[..n] == [tokens[0]] + tokens[1..][..n - 1];
      } else {
        OverIsOver(s1, id, outcomes[1..]);
      }
    }
  }

  lemma {:induction false} HeldTokensAreListed(v: Vault, keys: seq<string>, audience: string, key: string)
    requires key in keys && ForAudience(key, audience) && key in v.tokens
    ensures v.tokens[key] in HeldTokens(v, keys, audience)
  {
    if keys[0] != key {
      HeldTokensAreListed(v, keys[1..], audience, key);
    }
  }

  /** Without its tokens an audience has no entries. */
  lemma NoneOfAudience(v: Vault, v': Vault, audience: string)
    requires Ordered(v) && Without(v, v', TokensByAudience(v, audience))
    ensures forall key :: ForAudience(key, audience) ==> key !in v'.tokens
  {
    forall key | key in v.tokens && ForAudience(key, audience)
      ensures v.tokens[key] in TokensByAudience(v, audience)
    {
      HeldTokensAreListed(v, v.order, audience, key);
    }
  }

  /** What is left of the store when a handler that has just captured its tokens is given these answers. */
  lemma CapturedAreRevoked(s: System, id: nat, audience: string, outcomes: seq<bool>)
    requires Ordered(s.vault) && id in s.revoking && s.revoking[id] == TokensByAudience(s.vault, audience)
    ensures var tokens, s' := TokensByAudience(s.vault, audience), After(s, Answers(id, outcomes));
            var n := Revocation.Accepted(tokens, outcomes);
            && Distinct(tokens) && Without(s.vault, s'.vault, tokens[..n])
            && (n < |tokens| && n < |outcomes| ==> id !in s'.revoking)
            && (n == |tokens| ==> forall key :: ForAudience(key, audience) ==> key !in s'.vault.tokens)
  {
    var tokens := TokensByAudience(s.vault, audience);
    DedupeIsDistinct(HeldTokens(s.vault, s.vault.order, audience));
    AnswersRevoke(s, id, outcomes);
    if Revocation.Accepted(tokens, outcomes) == |tokens| {
      assert tokens[..|tokens|] == tokens;
      NoneOfAudience(s.vault, After(s, Answers(id, outcomes)).vault, audience);
    }
  }

  /**
   * With no other handler in between, the worker's revocation is exact as a whole, however its requests are
   * answered: when the first n distinct tokens of the audience were accepted and the next was not, precisely
   * the entries that hold one of those n are gone, the handler is over, and later answers change nothing;
   * when all were accepted the audience has no entry left.
   */
  lemma WorkerRevocationIsExact(s: System, id: nat, audience: string, outcomes: seq<bool>)
    requires Ordered(s.vault)
    ensures var tokens := TokensByAudience(s.vault, audience);
            var n := Revocation.Accepted(tokens, outcomes);
            var s' := After(s, [BeginRevoke(id, audience)] + Answers(id, outcomes));
            && Distinct(tokens) && Without(s.vault, s'.vault, tokens[..n])
            && (n < |tokens| && n < |outcomes| ==> id !in s'.revoking)
            && (n == |tokens| ==> forall key :: ForAudience(key, audience) ==> key !in s'.vault.tokens)
  {
    OneThenRest(s, BeginRevoke(id, audience), Answers(id, outcomes));
    CapturedAreRevoked(Next(s, BeginRevoke(id, audience)), id, audience, outcomes);
  }

  lemma PrefixEndsInBar(b: string, s: string)
    requires b + BAR <= s
    ensures |b| < |s| && s[|b|] == '|' && s[|b|] in s && s[..|b|] == b
  {
    assert (b + BAR)[|b|] == '|' && (b + BAR)[..|b|] == b;
    assert s[|b|] == (b + BAR)[|b|];
  }

  /** Audiences without `|` never see each other's entries, and never the entry for the latest token. */
  lemma AudiencesAreSeparate(a: string, scope: string, b: string)
    requires '|' !in a && '|' !in b
    ensures ForAudience(StoreKey(a, scope), b) <==> a == b
    ensures !ForAudience(LATEST, b) && StoreKey(a, scope) != LATEST
  {
    var key := StoreKey(a, scope);
    assert '|' !in LATEST;
    assert key[|a|] == '|' && key[..|a|] == a && key[|a|] in key;
    if ForAudience(key, b) {
      PrefixEndsInBar(b, key);
    }
    if ForAudience(LATEST, b) {
      PrefixEndsInBar(b, LATEST);
    }
  }
}
