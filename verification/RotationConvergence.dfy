/**
 * Multi-resource refresh: concurrent grants for different audiences each bring back their own rotated
 * refresh token. Saving the response and propagating the token to the other entries are two separate
 * steps of every grant, and the steps of different grants interleave in any order.
 */
module RotationConvergence {
  import opened Prelude
  import opened CacheKeys
  import opened TokenStore
  import opened StoreInvariants

  /** The cache, the rotated tokens saved but not yet propagated by grant, and the last one propagated. */
  datatype System = System(store: Store, pending: map<nat, string>, last: Option<string>)

  datatype Event =
    | Save(grant: nat, entry: CacheEntry, now: int)
    | Propagate(grant: nat, previous: string)
    | Lookup(k: CacheKey, adjustment: int, useMrrt: bool, cacheOnly: bool, now: int)
    | SaveIdToken(idToken: IdTokenEntry)
    | DropRefused(audience: string, scope: string)
    | Revoked(token: string)

  /** A grant saves once; it propagates only what it saved and has not propagated yet. */
  ghost predicate Enabled(ix: Index, c: string, s: System, ev: Event) {
    match ev
    case Save(g, e, _) => g !in s.pending && Storable(ix, e)
    case Propagate(g, _) => g in s.pending
    case SaveIdToken(_) => !IsManifestKey(ix, IdTokenKey(c))
    case DropRefused(audience, scope) =>
      !IsManifestKey(ix, ToKey(CacheKey(CACHE_KEY_PREFIX, Some(c), Some(audience), Some(scope), None)))
    case _ => true
  }

  function Next(ix: Index, c: string, s: System, ev: Event): System {
    match ev
    case Save(g, e, now) =>
      System(PutNoted(ix, s.store, EntryKey(e), Stamped(e, now)),
             if Truthy(e.refreshToken) then s.pending[g := e.refreshToken.value] else s.pending, s.last)
    case Propagate(g, previous) =>
      if g in s.pending
      then System(UpdateEntry(ix, s.store, previous, s.pending[g], c, true), s.pending - {g}, Some(s.pending[g]))
      else s
    case Lookup(k, adj, mrrt, only, now) => s.(store := Get(ix, s.store, k, adj, mrrt, only, now).1)
    case SaveIdToken(e) => s.(store := SetIdToken(ix, s.store, c, e))
    case DropRefused(audience, scope) => s.(store := Remove(s.store, c, Some(audience), Some(scope)))
    case Revoked(token) => s.(store := StripRefreshToken(ix, s.store, token))
  }

  ghost predicate Runs(ix: Index, c: string, s: System, evs: seq<Event>)
    decreases |evs|
  {
    evs != [] ==> Enabled(ix, c, s, evs[0]) && Runs(ix, c, Next(ix, c, s, evs[0]), evs[1..])
  }

  function After(ix: Index, c: string, s: System, evs: seq<Event>): System
    decreases |evs|
  {
    if evs == [] then s else After(ix, c, Next(ix, c, s, evs[0]), evs[1..])
  }

  /** An entry of client `c` that holds a refresh token. */
  predicate Holds(c: string, st: Store, key: string) {
    && key in st.entries && st.entries[key].Token? && FromKey(key).clientId == Some(c)
    && Truthy(st.entries[key].body.refreshToken)
  }

  function TokenAt(c: string, st: Store, key: string): string
    requires Holds(c, st, key)
  {
    st.entries[key].body.refreshToken.value
  }

  /** Once something was propagated, an entry holds that token or one still waiting to be propagated. */
  ghost predicate Converging(c: string, s: System) {
    s.last.Some? ==> forall key :: Holds(c, s.store, key) ==>
      TokenAt(c, s.store, key) == s.last.value || TokenAt(c, s.store, key) in s.pending.Values
  }

  /** No entry gains a refresh token or gets another one. */
  ghost predicate NoNewTokens(c: string, st: Store, st': Store) {
    forall key :: Holds(c, st', key) ==> Holds(c, st, key) && TokenAt(c, st', key) == TokenAt(c, st, key)
  }

  lemma LookupBringsNoTokens(ix: Index, c: string, st: Store, k: CacheKey, adj: int, mrrt: bool, only: bool, now: int)
    requires Inv(ix, st)
    ensures NoNewTokens(c, st, Get(ix, st, k, adj, mrrt, only, now).1)
  {
    var key := GetEffect(ix, st, k, adj, mrrt, only, now);
    var st' := Get(ix, st, k, adj, mrrt, only, now).1;
    if ServedFrom(st, k, key) {
      TouchedKeepsInv(ix, st, key, adj, now, st');
      OnlyManifestAppears(ix, st, key, adj, now, st', c);
    }
  }

  lemma OnlyManifestAppears(ix: Index, st: Store, key: string, adj: int, now: int, st': Store, c: string)
    requires Inv(ix, st) && key in st.entries && st.entries[key].Token? && Touched(ix, st, key, adj, now, st')
    requires Inv(ix, st')
    ensures NoNewTokens(c, st, st')
  {
  }

  /** A propagation rewrites refresh tokens and nothing else, in entries that had one, to the new one. */
  lemma PropagationEffect(ix: Index, c: string, st: Store, previous: string, next: string)
    requires Inv(ix, st) && next != ""
    ensures var st' := UpdateEntry(ix, st, previous, next, c, true);
            && st'.entries.Keys == st.entries.Keys && st'.order == st.order
            && (forall key :: Holds(c, st', key) <==> Holds(c, st, key))
            && (forall key :: Holds(c, st', key) ==>
                 && TokenAt(c, st', key) == next
                 && st'.entries[key] == st.entries[key].(body := st.entries[key].body.(refreshToken := Some(next))))
            && (forall key :: key in st.entries && !Holds(c, st, key) ==> st'.entries[key] == st.entries[key])
  {
  }

  lemma SaveEffect(ix: Index, c: string, st: Store, key: string, v: Value)
    requires Inv(ix, st) && !IsManifestKey(ix, key) && v.Token? && Restorable(key)
    ensures var st' := PutNoted(ix, st, key, v);
            && Inv(ix, st')
            && (forall k :: k != key && Holds(c, st', k) ==> Holds(c, st, k) && TokenAt(c, st', k) == TokenAt(c, st, k))
            && (Holds(c, st', key) ==> v.body.refreshToken == Some(TokenAt(c, st', key)))
  {
    NotedPutKeepsInv(ix, st, key, v);
  }

  lemma DropBringsNoTokens(ix: Index, c: string, st: Store, key: string)
    requires Inv(ix, st) && !IsManifestKey(ix, key)
    ensures Inv(ix, Delete(st, key)) && NoNewTokens(c, st, Delete(st, key))
  {
    BareDeleteKeepsInv(ix, st, key);
  }

  lemma StripBringsNoTokens(ix: Index, c: string, st: Store, token: string)
    requires Inv(ix, st)
    ensures NoNewTokens(c, st, StripRefreshToken(ix, st, token))
  {
  }

  lemma IdTokenBringsNoTokens(ix: Index, c: string, st: Store, e: IdTokenEntry)
    requires Inv(ix, st) && !IsManifestKey(ix, IdTokenKey(c))
    ensures NoNewTokens(c, st, SetIdToken(ix, st, c, e))
  {
  }

  ghost predicate Good(ix: Index, c: string, s: System) {
    Inv(ix, s.store) && Converging(c, s) && "" !in s.pending.Values
  }

  lemma NoNewTokensConverges(c: string, s: System, s': System)
    requires Converging(c, s) && NoNewTokens(c, s.store, s'.store) && s'.pending == s.pending && s'.last == s.last
    ensures Converging(c, s')
  {
  }

  lemma PropagateStaysGood(ix: Index, c: string, s: System, g: nat, previous: string)
    requires Good(ix, c, s) && g in s.pending
    ensures Good(ix, c, Next(ix, c, s, Propagate(g, previous)))
  {
    var next := s.pending[g];
    assert next in s.pending.Values;
    PropagationEffect(ix, c, s.store, previous, next);
    UpdateEntryKeepsInv(ix, s.store, previous, next, c, true);
    assert (s.pending - {g}).Values <= s.pending.Values;
  }

  lemma SaveStaysGood(ix: Index, c: string, s: System, g: nat, e: CacheEntry, now: int)
    requires Good(ix, c, s) && g !in s.pending && Storable(ix, e)
    ensures Good(ix, c, Next(ix, c, s, Save(g, e, now)))
  {
    var key, v := EntryKey(e), Stamped(e, now);
    SaveEffect(ix, c, s.store, key, v);
    SavedTokenIsPending(ix, c, s, g, key, v, Next(ix, c, s, Save(g, e, now)));
  }

  lemma SavedTokenIsPending(ix: Index, c: string, s: System, g: nat, key: string, v: Value, s': System)
    requires Good(ix, c, s) && g !in s.pending && v.Token? && Inv(ix, s'.store) && s'.last == s.last
    requires s'.pending == if Truthy(v.body.refreshToken) then s.pending[g := v.body.refreshToken.value] else s.pending
    requires forall k :: k != key && Holds(c, s'.store, k) ==>
               Holds(c, s.store, k) && TokenAt(c, s'.store, k) == TokenAt(c, s.store, k)
    requires Holds(c, s'.store, key) ==> v.body.refreshToken == Some(TokenAt(c, s'.store, key))
    ensures Good(ix, c, s')
  {
    if Truthy(v.body.refreshToken) {
      assert s'.pending[g] in s'.pending.Values;
      forall t | t in s.pending.Values
        ensures t in s'.pending.Values
      {
        var h :| h in s.pending && s.pending[h] == t;
        assert s'.pending[h] == t;
      }
    }
  }

  lemma StepStaysGood(ix: Index, c: string, s: System, ev: Event)
    requires Good(ix, c, s) && Enabled(ix, c, s, ev)
    ensures Good(ix, c, Next(ix, c, s, ev))
  {
    match ev
    case Save(g, e, now) => SaveStaysGood(ix, c, s, g, e, now);
    case Propagate(g, previous) => PropagateStaysGood(ix, c, s, g, previous);
    case Lookup(k, adj, mrrt, only, now) =>
      GetKeepsInv(ix, s.store, k, adj, mrrt, only, now);
      LookupBringsNoTokens(ix, c, s.store, k, adj, mrrt, only, now);
      NoNewTokensConverges(c, s, Next(ix, c, s, ev));
    case SaveIdToken(e) =>
      SetIdTokenKeepsInv(ix, s.store, c, e);
      IdTokenBringsNoTokens(ix, c, s.store, e);
      NoNewTokensConverges(c, s, Next(ix, c, s, ev));
    case DropRefused(audience, scope) =>
      DropBringsNoTokens(ix, c, s.store, ToKey(CacheKey(CACHE_KEY_PREFIX, Some(c), Some(audience), Some(scope), None)));
      NoNewTokensConverges(c, s, Next(ix, c, s, ev));
    case Revoked(token) =>
      StripKeepsInv(ix, s.store, token);
      StripBringsNoTokens(ix, c, s.store, token);
      NoNewTokensConverges(c, s, Next(ix, c, s, ev));
  }

  lemma {:induction false} RunStaysGood(ix: Index, c: string, s: System, evs: seq<Event>)
    requires Good(ix, c, s) && Runs(ix, c, s, evs)
    ensures Good(ix, c, After(ix, c, s, evs))
    decreases |evs|
  {
    if evs != [] {
      StepStaysGood(ix, c, s, evs[0]);
      RunStaysGood(ix, c, Next(ix, c, s, evs[0]), evs[1..]);
    }
  }

  /**
   * Convergence. From any well-formed cache, after any interleaving of any number of grants with
   * lookups, refused upscopes and revocations: once every save has had its propagation, all entries
   * of the client that hold a refresh token hold the same one, that of the last propagation.
   */
  lemma GrantsConverge(ix: Index, c: string, st: Store, evs: seq<Event>)
    requires Inv(ix, st) && Runs(ix, c, System(st, map[], None), evs)
    requires var s := After(ix, c, System(st, map[], None), evs); s.pending == map[] && s.last.Some?
    ensures var s := After(ix, c, System(st, map[], None), evs);
            forall key :: Holds(c, s.store, key) ==> TokenAt(c, s.store, key) == s.last.value
  {
    RunStaysGood(ix, c, System(st, map[], None), evs);
  }

  /** Without multi-resource refresh the rotation reaches exactly the entries that shared the spent token. */
  lemma RotationFansOut(ix: Index, c: string, st: Store, previous: string, next: string)
    requires Inv(ix, st) && next != ""
    ensures var st' := UpdateEntry(ix, st, previous, next, c, false);
            && (forall key :: Holds(c, st', key) <==> Holds(c, st, key))
            && (forall key :: Holds(c, st', key) ==>
                 TokenAt(c, st', key) == if TokenAt(c, st, key) == previous then next else TokenAt(c, st, key))
            && (forall key :: key in st.entries && !Holds(c, st, key) ==>
              key in st'.entries && st'.entries[key] == st.entries[key])
  {
  }
}
