/**
 * The MFA contexts of src/mfa/MfaContextManager.ts: a map whose entries lapse
 * after a time-to-live, proved to answer every `get` as the bare history of
 * `set` and `remove` calls would.
 */
module MfaContexts {
  import opened Prelude

  datatype Context = Context(scope: Option<string>, audience: Option<string>, requirements: Option<string>)

  datatype Stored = Stored(context: Context, createdAt: int)

  type Contexts = map<string, Stored>

  const DEFAULT_TTL_MS := 10 * 60 * 1000

  predicate Expired(stored: Stored, now: int, ttlMs: int) {
    now - stored.createdAt > ttlMs
  }

  function Cleaned(contexts: Contexts, now: int, ttlMs: int): Contexts {
    map token | token in contexts && !Expired(contexts[token], now, ttlMs) :: contexts[token]
  }

  function Answer(contexts: Contexts, token: string, now: int, ttlMs: int): Option<Stored> {
    if token in contexts && !Expired(contexts[token], now, ttlMs) then Some(contexts[token]) else None
  }

  function AfterGet(contexts: Contexts, token: string, now: int, ttlMs: int): Contexts {
    if Answer(contexts, token, now, ttlMs).None? then contexts - {token} else contexts
  }

  class MfaContextManager {
    var contexts: Contexts
    const ttlMs: int

    constructor (ttlMs: int := DEFAULT_TTL_MS)
      ensures contexts == map[] && this.ttlMs == ttlMs
    {
      contexts := map[];
      this.ttlMs := ttlMs;
    }

    /** The clock is read by the cleanup and again for the new entry. */
    method Set(token: string, context: Context, cleanedAt: int, createdAt: int)
      modifies this
      ensures contexts == Cleaned(old(contexts), cleanedAt, ttlMs)[token := Stored(context, createdAt)]
    {
      Cleanup(cleanedAt);
      contexts := contexts[token := Stored(context, createdAt)];
    }

    method Get(token: string, now: int) returns (r: Option<Stored>)
      modifies this
      ensures r == Answer(old(contexts), token, now, ttlMs)
      ensures contexts == AfterGet(old(contexts), token, now, ttlMs)
    {
      if token !in contexts {
        assert contexts - {token} == contexts;
        return None;
      }
      if now - contexts[token].createdAt > ttlMs {
        contexts := contexts - {token};
        return None;
      }
      r := Some(contexts[token]);
    }

    method Remove(token: string)
      modifies this
      ensures contexts == old(contexts) - {token}
    {
      contexts := contexts - {token};
    }

    /** Entries are deleted while the keys are walked, in any order. */
    method Cleanup(now: int)
      modifies this
      ensures contexts == Cleaned(old(contexts), now, ttlMs)
    {
      var ahead := contexts.Keys;
      while ahead != {}
        invariant ahead <= contexts.Keys <= old(contexts).Keys
        invariant forall k :: k in contexts ==> contexts[k] == old(contexts)[k]
        invariant forall k :: k in contexts && k !in ahead ==> !Expired(contexts[k], now, ttlMs)
        invariant forall k :: k in old(contexts) && k !in contexts ==> Expired(old(contexts)[k], now, ttlMs)
        decreases |ahead|
      {
        var key :| key in ahead;
        ahead := ahead - {key};
        if now - contexts[key].createdAt > ttlMs {
          contexts := contexts - {key};
        }
      }
    }
  }

  // -------------------------------------------------------------------- runs

  datatype Op =
    | SetOp(token: string, context: Context, cleanedAt: int, createdAt: int)
    | GetOp(token: string, now: int)
    | RemoveOp(token: string)

  /** The clock never goes back. */
  predicate Monotone(ops: seq<Op>, from: int) {
    ops == [] ||
    match ops[0]
    case SetOp(_, _, cleanedAt, createdAt) => from <= cleanedAt <= createdAt && Monotone(ops[1..], createdAt)
    case GetOp(_, now) => from <= now && Monotone(ops[1..], now)
    case RemoveOp(_) => Monotone(ops[1..], from)
  }

  /** One operation, with or without the cleanup of `set`. */
  function AfterOp(contexts: Contexts, op: Op, ttlMs: int, cleans: bool): Contexts {
    match op
    case SetOp(token, context, cleanedAt, createdAt) =>
      (if cleans then Cleaned(contexts, cleanedAt, ttlMs) else contexts)[token := Stored(context, createdAt)]
    case GetOp(token, now) => AfterGet(contexts, token, now, ttlMs)
    case RemoveOp(token) => contexts - {token}
  }

  /** What the `get` calls of a run return, in order. */
  function Answers(contexts: Contexts, ops: seq<Op>, ttlMs: int, cleans: bool): seq<Option<Stored>>
    decreases |ops|
  {
    if ops == [] then []
    else
      var answer := if ops[0].GetOp? then [Answer(contexts, ops[0].token, ops[0].now, ttlMs)] else [];
      answer + Answers(AfterOp(contexts, ops[0], ttlMs, cleans), ops[1..], ttlMs, cleans)
  }

  /** The `set` that is the last operation on the token in the log, if it is one. */
  function LastSet(log: seq<Op>, token: string): Option<Stored> {
    if log == [] then None
    else
      var last := log[|log| - 1];
      if last.GetOp? || last.token != token then LastSet(log[..|log| - 1], token)
      else if last.SetOp? then Some(Stored(last.context, last.createdAt))
      else None
  }

  /** What the log alone says a `get` returns: the last `set`, if it is at most the time-to-live old. */
  function FromLog(log: seq<Op>, token: string, now: int, ttlMs: int): Option<Stored> {
    var stored := LastSet(log, token);
    if stored.Some? && now - stored.value.createdAt <= ttlMs then stored else None
  }

  function AnswersFromLog(log: seq<Op>, ops: seq<Op>, ttlMs: int): seq<Option<Stored>>
    decreases |ops|
  {
    if ops == [] then []
    else
      var answer := if ops[0].GetOp? then [FromLog(log, ops[0].token, ops[0].now, ttlMs)] else [];
      answer + AnswersFromLog(log + [ops[0]], ops[1..], ttlMs)
  }

  /** The map holds only last `set`s, and every one it lacks has lapsed. */
  ghost predicate Agrees(contexts: Contexts, log: seq<Op>, now: int, ttlMs: int) {
    && (forall token :: token in contexts ==> LastSet(log, token) == Some(contexts[token]))
    && (forall token :: token !in contexts && LastSet(log, token).Some? ==>
          Expired(LastSet(log, token).value, now, ttlMs))
  }

  lemma LastSetAfter(log: seq<Op>, op: Op, token: string)
    ensures LastSet(log + [op], token) ==
            (if op.GetOp? || op.token != token then LastSet(log, token)
             else if op.SetOp? then Some(Stored(op.context, op.createdAt))
             else None)
  {
    assert (log + [op])[..|log|] == log;
  }

  lemma SetAgrees(contexts: Contexts, kept: Contexts, log: seq<Op>, now: int, op: Op, ttlMs: int)
    requires Agrees(contexts, log, now, ttlMs) && op.SetOp? && now <= op.cleanedAt <= op.createdAt
    requires kept == contexts || kept == Cleaned(contexts, op.cleanedAt, ttlMs)
    ensures Agrees(kept[op.token := Stored(op.context, op.createdAt)], log + [op], op.createdAt, ttlMs)
  {
    forall token {
      LastSetAfter(log, op, token);
    }
  }

  lemma GetAgrees(contexts: Contexts, log: seq<Op>, now: int, op: Op, ttlMs: int)
    requires Agrees(contexts, log, now, ttlMs) && op.GetOp? && now <= op.now
    ensures Answer(contexts, op.token, op.now, ttlMs) == FromLog(log, op.token, op.now, ttlMs)
    ensures Agrees(AfterGet(contexts, op.token, op.now, ttlMs), log + [op], op.now, ttlMs)
  {
    forall token {
      LastSetAfter(log, op, token);
    }
  }

  lemma RemoveAgrees(contexts: Contexts, log: seq<Op>, now: int, op: Op, ttlMs: int)
    requires Agrees(contexts, log, now, ttlMs) && op.RemoveOp?
    ensures Agrees(contexts - {op.token}, log + [op], now, ttlMs)
  {
    forall token {
      LastSetAfter(log, op, token);
    }
  }

  lemma {:induction false} RunRefinesLogFrom(
    contexts: Contexts, log: seq<Op>, now: int, ops: seq<Op>, ttlMs: int, cleans: bool)
    requires Agrees(contexts, log, now, ttlMs) && Monotone(ops, now)
    ensures Answers(contexts, ops, ttlMs, cleans) == AnswersFromLog(log, ops, ttlMs)
    decreases |ops|
  {
    if ops != [] {
      var op, next := ops[0], log + [ops[0]];
      match op
      case SetOp(token, context, cleanedAt, createdAt) =>
        var kept := if cleans then Cleaned(contexts, cleanedAt, ttlMs) else contexts;
        SetAgrees(contexts, kept, log, now, op, ttlMs);
        RunRefinesLogFrom(kept[token := Stored(context, createdAt)], next, createdAt, ops[1..], ttlMs, cleans);
      case GetOp(token, at) =>
        GetAgrees(contexts, log, now, op, ttlMs);
        RunRefinesLogFrom(AfterGet(contexts, token, at, ttlMs), next, at, ops[1..], ttlMs, cleans);
      case RemoveOp(token) =>
        RemoveAgrees(contexts, log, now, op, ttlMs);
        RunRefinesLogFrom(contexts - {token}, next, now, ops[1..], ttlMs, cleans);
    }
  }

  /**
   * In every run under a monotone clock each `get` returns a context exactly when
   * the last operation on its token was a `set` no older than the time-to-live.
   */
  lemma RunRefinesLog(ops: seq<Op>, start: int, ttlMs: int, cleans: bool)
    requires Monotone(ops, start)
    ensures Answers(map[], ops, ttlMs, cleans) == AnswersFromLog([], ops, ttlMs)
  {
    RunRefinesLogFrom(map[], [], start, ops, ttlMs, cleans);
  }

  /** No `get` of any run can tell whether `set` cleans up. */
  lemma CleanupIsUnobservable(ops: seq<Op>, start: int, ttlMs: int)
    requires Monotone(ops, start)
    ensures Answers(map[], ops, ttlMs, true) == Answers(map[], ops, ttlMs, false)
  {
    RunRefinesLog(ops, start, ttlMs, true);
    RunRefinesLog(ops, start, ttlMs, false);
  }

  // ------------------------------------------------- any clock, even one that goes back

  /** What is stored after the operations. */
  function AfterOps(ops: seq<Op>, ttlMs: int, cleans: bool): Contexts {
    if ops == [] then map[] else AfterOp(AfterOps(ops[..|ops| - 1], ttlMs, cleans), ops[|ops| - 1], ttlMs, cleans)
  }

  /** Operation `i` sets the token, and nothing later on that token replaces, removes or lapses the context. */
  predicate LastKept(ops: seq<Op>, i: nat, token: string, ttlMs: int) {
    && i < |ops| && ops[i].SetOp? && ops[i].token == token
    && forall m :: i < m < |ops| && ops[m].token == token ==>
         ops[m].GetOp? && ops[m].now - ops[i].createdAt <= ttlMs
  }

  /** A later `set` cleans up at a reading of the clock at which the context of operation `i` has lapsed. */
  predicate Swept(ops: seq<Op>, i: nat, ttlMs: int)
    requires i < |ops| && ops[i].SetOp?
  {
    exists j :: i < j < |ops| && ops[j].SetOp? && ops[j].cleanedAt - ops[i].createdAt > ttlMs
  }

  /** The one operation that a stored context goes back to. */
  ghost predicate StoredBy(ops: seq<Op>, i: nat, token: string, ttlMs: int, cleans: bool) {
    LastKept(ops, i, token, ttlMs) && (cleans ==> !Swept(ops, i, ttlMs))
  }

  lemma EarlierStays(ops: seq<Op>, i: nat, token: string, ttlMs: int, cleans: bool)
    requires |ops| > 0 && i < |ops| - 1
    ensures var last := ops[|ops| - 1];
            StoredBy(ops, i, token, ttlMs, cleans) <==>
              (&& StoredBy(ops[..|ops| - 1], i, token, ttlMs, cleans)
               && (last.token == token ==> last.GetOp? && last.now - ops[i].createdAt <= ttlMs)
               && (cleans && last.SetOp? ==> last.cleanedAt - ops[i].createdAt <= ttlMs))
  {
    var front := ops[..|ops| - 1];
    if ops[i].SetOp? {
      if Swept(front, i, ttlMs) {
        var j :| i < j < |front| && front[j].SetOp? && front[j].cleanedAt - front[i].createdAt > ttlMs;
        assert ops[j] == front[j];
      }
      if Swept(ops, i, ttlMs) {
        var j :| i < j < |ops| && ops[j].SetOp? && ops[j].cleanedAt - ops[i].createdAt > ttlMs;
        assert j < |front| ==> front[j] == ops[j];
      }
      forall m | i < m < |ops|
        ensures m < |front| ==> front[m] == ops[m]
      {
      }
    }
  }

  /** A context is stored exactly when some `set` stored it and nothing took it away since. */
  ghost predicate StoresExactly(contexts: Contexts, ops: seq<Op>, token: string, ttlMs: int, cleans: bool) {
    && (token in contexts ==> exists i: nat :: StoredBy(ops, i, token, ttlMs, cleans))
    && (forall i: nat :: StoredBy(ops, i, token, ttlMs, cleans) ==>
         token in contexts && contexts[token] == Stored(ops[i].context, ops[i].createdAt))
  }

  lemma {:induction false} StoredExactly(ops: seq<Op>, token: string, ttlMs: int, cleans: bool)
    ensures StoresExactly(AfterOps(ops, ttlMs, cleans), ops, token, ttlMs, cleans)
  {
    if ops != [] {
      var n := |ops| - 1;
      StoredExactly(ops[..n], token, ttlMs, cleans);
      OneMoreOp(AfterOps(ops[..n], ttlMs, cleans), ops, token, ttlMs, cleans);
    }
  }

  lemma OneMoreOp(before: Contexts, ops: seq<Op>, token: string, ttlMs: int, cleans: bool)
    requires |ops| > 0 && StoresExactly(before, ops[..|ops| - 1], token, ttlMs, cleans)
    ensures StoresExactly(AfterOp(before, ops[|ops| - 1], ttlMs, cleans), ops, token, ttlMs, cleans)
  {
    var n := |ops| - 1;
    var front, last := ops[..n], ops[n];
    var after := AfterOp(before, last, ttlMs, cleans);
    LastOpStores(ops, token, ttlMs, cleans);
    forall i: nat | StoredBy(ops, i, token, ttlMs, cleans)
      ensures token in after && after[token] == Stored(ops[i].context, ops[i].createdAt)
    {
      if i < n {
        EarlierStays(ops, i, token, ttlMs, cleans);
        assert before[token] == Stored(front[i].context, front[i].createdAt);
      }
    }
    if token in after {
      if last.SetOp? && last.token == token {
        assert StoredBy(ops, n, token, ttlMs, cleans);
      } else {
        var i: nat :| StoredBy(front, i, token, ttlMs, cleans);
        assert before[token] == Stored(front[i].context, front[i].createdAt);
        EarlierStays(ops, i, token, ttlMs, cleans);
        assert StoredBy(ops, i, token, ttlMs, cleans);
      }
    }
  }

  lemma LastOpStores(ops: seq<Op>, token: string, ttlMs: int, cleans: bool)
    requires |ops| > 0
    ensures StoredBy(ops, |ops| - 1, token, ttlMs, cleans) <==>
              ops[|ops| - 1].SetOp? && ops[|ops| - 1].token == token
  {
  }

  /**
   * Exactly when the cleanup shows, whatever the clock does: a `get` at a time when the token's last
   * context would still be live, after another `set` swept it at a reading at which it was not.
   */
  lemma CleanupShowsExactly(ops: seq<Op>, token: string, now: int, ttlMs: int)
    ensures Answer(AfterOps(ops, ttlMs, true), token, now, ttlMs)
      != Answer(AfterOps(ops, ttlMs, false), token, now, ttlMs)
      <==> exists i: nat :: LastKept(ops, i, token, ttlMs) && Swept(ops, i, ttlMs) && now - ops[i].createdAt <= ttlMs
  {
    StoredExactly(ops, token, ttlMs, true);
    StoredExactly(ops, token, ttlMs, false);
    if i: nat :| LastKept(ops, i, token, ttlMs) && Swept(ops, i, ttlMs) && now - ops[i].createdAt <= ttlMs {
      assert StoredBy(ops, i, token, ttlMs, false);
      forall k: nat | StoredBy(ops, k, token, ttlMs, true)
        ensures false
      {
        OneLastKept(ops, i, k, token, ttlMs);
      }
    } else {
      forall i: nat | StoredBy(ops, i, token, ttlMs, false) && now - ops[i].createdAt <= ttlMs
        ensures StoredBy(ops, i, token, ttlMs, true)
      {
      }
    }
  }

  lemma OneLastKept(ops: seq<Op>, i: nat, k: nat, token: string, ttlMs: int)
    requires LastKept(ops, i, token, ttlMs) && LastKept(ops, k, token, ttlMs)
    ensures i == k
  {
  }

  /** It takes a clock that goes back: the sweep was made at a later reading than the `get`. */
  lemma CleanupShowsOnlyBackward(ops: seq<Op>, token: string, now: int, ttlMs: int)
    requires Answer(AfterOps(ops, ttlMs, true), token, now, ttlMs)
      != Answer(AfterOps(ops, ttlMs, false), token, now, ttlMs)
    ensures exists j :: 0 <= j < |ops| && ops[j].SetOp? && ops[j].cleanedAt > now
  {
    CleanupShowsExactly(ops, token, now, ttlMs);
    var i: nat :| LastKept(ops, i, token, ttlMs) && Swept(ops, i, ttlMs) && now - ops[i].createdAt <= ttlMs;
    var j :| i < j < |ops| && ops[j].SetOp? && ops[j].cleanedAt - ops[i].createdAt > ttlMs;
    assert ops[j].cleanedAt > now;
  }

  /** One such input: set, swept 20 milliseconds later by another `set`, and read at 5. */
  lemma BackwardClockShowsCleanup(context: Context)
    ensures var ops := [SetOp("a", context, 0, 0), SetOp("b", context, 20, 20)];
            Answer(AfterOps(ops, 10, true), "a", 5, 10) != Answer(AfterOps(ops, 10, false), "a", 5, 10)
  {
    var ops := [SetOp("a", context, 0, 0), SetOp("b", context, 20, 20)];
    CleanupShowsExactly(ops, "a", 5, 10);
    assert LastKept(ops, 0, "a", 10) && ops[1].cleanedAt - ops[0].createdAt > 10;
  }

  /** By default a context is answered for ten minutes. */
  lemma DefaultIsTenMinutes(contexts: Contexts, token: string, now: int)
    requires token in contexts
    ensures Answer(contexts, token, now, DEFAULT_TTL_MS).Some? <==> now - contexts[token].createdAt <= 600_000
  {
  }

  /**
   * After a `set` no stored context has lapsed, the new one included, exactly when
   * the time-to-live is not below the (negative) age the new one had at the cleanup;
   * so always when it is not negative.
   */
  lemma SetLeavesOnlyLive(
      contexts: Contexts, token: string, context: Context, cleanedAt: int, createdAt: int, ttlMs: int)
    requires cleanedAt <= createdAt
    ensures
      var after := Cleaned(contexts, cleanedAt, ttlMs)[token := Stored(context, createdAt)];
      (forall k :: k in after ==> !Expired(after[k], cleanedAt, ttlMs)) <==> cleanedAt - createdAt <= ttlMs
  {
    var after := Cleaned(contexts, cleanedAt, ttlMs)[token := Stored(context, createdAt)];
    assert token in after;
  }

  /**
   * At the later reading, the one the new context is stamped with, that holds exactly when the time-to-live
   * is not negative and no other context lapsed in between: none that was live at the cleanup had less of
   * its time left than the gap between the two readings.
   */
  lemma SetLeavesOnlyLiveLater(
      contexts: Contexts, token: string, context: Context, cleanedAt: int, createdAt: int, ttlMs: int)
    requires cleanedAt <= createdAt
    ensures
      var after := Cleaned(contexts, cleanedAt, ttlMs)[token := Stored(context, createdAt)];
      (forall k :: k in after ==> !Expired(after[k], createdAt, ttlMs))
      <==> 0 <= ttlMs && forall k :: k in contexts && k != token ==>
             var left := ttlMs - (cleanedAt - contexts[k].createdAt);
             !(0 <= left < createdAt - cleanedAt)
  {
    var after := Cleaned(contexts, cleanedAt, ttlMs)[token := Stored(context, createdAt)];
    assert token in after;
    if forall k :: k in after ==> !Expired(after[k], createdAt, ttlMs) {
      forall k | k in contexts && k != token
        ensures !(0 <= ttlMs - (cleanedAt - contexts[k].createdAt) < createdAt - cleanedAt)
      {
        assert k in after ==> after[k] == contexts[k];
      }
    }
  }
}
