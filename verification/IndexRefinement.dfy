/**
 * A manager over a cache that cannot list its keys keeps them in a manifest entry. For one client it
 * behaves exactly like a manager over a cache that lists its keys in insertion order.
 */
module IndexRefinement {
  import opened Prelude
  import opened Text
  import opened CacheKeys
  import opened TokenStore
  import opened StoreInvariants

  datatype Op =
    | DoGet(k: CacheKey, adjustment: int, useMrrt: bool, cacheOnly: bool, now: int)
    | DoSet(entry: CacheEntry, now: int)
    | DoSetIdToken(idToken: IdTokenEntry)
    | DoGetIdToken(k: CacheKey, now: int)
    | DoUpdateEntry(previous: string, next: string, useMrrt: bool)
    | DoStrip(token: string)
    | DoListTokens(api: string)
    | DoClear(id: Option<string>)
    | DoRemove(audience: Option<string>, scope: Option<string>)

  datatype Result =
    | Done
    | Found(body: Option<Body>)
    | FoundId(entry: Option<IdTokenEntry>)
    | Listing(tokens: seq<string>)

  /** One public operation of the cache manager of client `c`. */
  function Step(ix: Index, c: string, st: Store, op: Op): (Result, Store) {
    match op
    case DoGet(k, adj, mrrt, only, now) => var (r, st') := Get(ix, st, k, adj, mrrt, only, now); (Found(r), st')
    case DoSet(e, now) => (Done, PutNoted(ix, st, EntryKey(e), Stamped(e, now)))
    case DoSetIdToken(e) => (Done, SetIdToken(ix, st, c, e))
    case DoGetIdToken(k, now) => var (r, st') := GetIdToken(ix, st, k, now); (FoundId(r), st')
    case DoUpdateEntry(previous, next, mrrt) => (Done, UpdateEntry(ix, st, previous, next, c, mrrt))
    case DoStrip(token) => (Done, StripRefreshToken(ix, st, token))
    case DoListTokens(api) => (Listing(RefreshTokensByAudience(ix, st, api, c)), st)
    case DoClear(id) => (Done, Clear(ix, st, id))
    case DoRemove(audience, scope) => (Done, Remove(st, c, audience, scope))
  }

  /** Results of a run, and the store it ends in. */
  function Run(ix: Index, c: string, st: Store, ops: seq<Op>): (seq<Result>, Store)
    decreases |ops|
  {
    if ops == [] then ([], st)
    else
      var (r, st') := Step(ix, c, st, ops[0]);
      var (rs, last) := Run(ix, c, st', ops[1..]);
      ([r] + rs, last)
  }

  /** The operation speaks of client `c`'s own entries, and not of the manifest entry itself. */
  ghost predicate Own(c: string, op: Op) {
    match op
    case DoGet(k, _, _, _, _) => !IsManifestKey(ManifestOf(c), ToKey(k))
    case DoSet(e, _) => e.clientId == c && Storable(ManifestOf(c), e)
    case DoGetIdToken(k, _) => !IsManifestKey(ManifestOf(c), ToKey(k))
    case DoClear(id) => id.None? || id == Some(c)
    case DoRemove(audience, scope) =>
      !IsManifestKey(ManifestOf(c), ToKey(CacheKey(CACHE_KEY_PREFIX, Some(c), audience, scope, None)))
    case _ => true
  }

  /** Same entries apart from the manifest, which lists the other store's keys in the same order. */
  ghost predicate Mirrors(c: string, a: Store, b: Store) {
    && !IsManifestKeyIn(c, a)
    && (forall key :: key != ManifestKey(c) ==> (key in a.entries <==> key in b.entries))
    && (forall key :: key in a.entries ==> key in b.entries && a.entries[key] == b.entries[key])
    && Recorded(b, c) == a.order
  }

  ghost predicate IsManifestKeyIn(c: string, a: Store) {
    ManifestKey(c) in a.entries
  }

  ghost predicate Refines(c: string, a: Store, b: Store) {
    && Inv(AllKeys, a) && Inv(ManifestOf(c), b) && Mirrors(c, a, b)
    && forall key :: key in a.entries ==> Includes(key, c)
  }

  /** `b'` differs from `b` outside the manifest exactly by what happened to `key`. */
  ghost predicate ChangedAt(c: string, b: Store, b': Store, key: string, now: Option<Value>) {
    && (forall k :: k != ManifestKey(c) && k != key ==> (k in b'.entries <==> k in b.entries))
    && (forall k :: k != ManifestKey(c) && k != key && k in b.entries ==> b'.entries[k] == b.entries[k])
    && (key in b'.entries <==> now.Some?) && (now.Some? ==> b'.entries[key] == now.value)
  }

  lemma ManifestPutEffect(c: string, b: Store, key: string, v: Value)
    requires Inv(ManifestOf(c), b) && key != ManifestKey(c)
    ensures var b' := PutNoted(ManifestOf(c), b, key, v);
            ChangedAt(c, b, b', key, Some(v)) && Recorded(b', c) == AddKey(Recorded(b, c), key)
  {
    RecordedFacts(c, b);
    assert Recorded(Put(b, key, v), c) == Recorded(b, c);
  }

  /** Rewriting or deleting the manifest entry leaves the other entries alone. */
  lemma ManifestRewriteEffect(c: string, b: Store, st1: Store, key: string, keys: seq<string>)
    requires key != ManifestKey(c) && st1.entries == b.entries - {key}
    ensures ChangedAt(c, b, Put(st1, ManifestKey(c), Manifest(keys)), key, None)
    ensures Recorded(Put(st1, ManifestKey(c), Manifest(keys)), c) == keys
    ensures ChangedAt(c, b, Delete(st1, ManifestKey(c)), key, None) && Recorded(Delete(st1, ManifestKey(c)), c) == []
    ensures ChangedAt(c, b, st1, key, None)
  {
  }

  lemma ManifestDeleteEffect(c: string, b: Store, key: string)
    requires Inv(ManifestOf(c), b) && key != ManifestKey(c)
    ensures var b' := ForgetKey(ManifestOf(c), Delete(b, key), key);
            ChangedAt(c, b, b', key, None) && Recorded(b', c) == RemoveKey(Recorded(b, c), key)
  {
    RecordedFacts(c, b);
    var st1 := Delete(b, key);
    assert Recorded(st1, c) == Recorded(b, c);
    ManifestRewriteEffect(c, b, st1, key, RemoveKey(Recorded(b, c), key));
  }

  lemma ChangeMirrors(c: string, a: Store, b: Store, a': Store, b': Store, key: string, now: Option<Value>)
    requires Mirrors(c, a, b) && key != ManifestKey(c) && ChangedAt(c, b, b', key, now) && Recorded(b', c) == a'.order
    requires a'.entries == if now.Some? then a.entries[key := now.value] else a.entries - {key}
    ensures Mirrors(c, a', b')
  {
  }

  lemma PutNotedRefines(c: string, a: Store, b: Store, key: string, v: Value)
    requires Refines(c, a, b) && !IsManifestKey(ManifestOf(c), key) && Includes(key, c)
    requires v.Token? ==> Restorable(key)
    ensures Refines(c, PutNoted(AllKeys, a, key, v), PutNoted(ManifestOf(c), b, key, v))
  {
    NotedPutKeepsInv(AllKeys, a, key, v);
    NotedPutKeepsInv(ManifestOf(c), b, key, v);
    ManifestPutEffect(c, b, key, v);
    ChangeMirrors(c, a, b, PutNoted(AllKeys, a, key, v), PutNoted(ManifestOf(c), b, key, v), key, Some(v));
  }

  lemma OverwriteRefines(c: string, a: Store, b: Store, key: string, v: Value)
    requires Refines(c, a, b) && key in a.entries && a.entries[key].Token? && v.Token?
    ensures Refines(c, Put(a, key, v), Put(b, key, v))
  {
    OverwriteKeepsInv(AllKeys, a, key, v);
    OverwriteKeepsInv(ManifestOf(c), b, key, v);
  }

  lemma DeleteRefines(c: string, a: Store, b: Store, key: string)
    requires Refines(c, a, b) && !IsManifestKey(ManifestOf(c), key)
    ensures Refines(c, ForgetKey(AllKeys, Delete(a, key), key), ForgetKey(ManifestOf(c), Delete(b, key), key))
  {
    ForgottenDeleteKeepsInv(AllKeys, a, key);
    ForgottenDeleteKeepsInv(ManifestOf(c), b, key);
    ManifestDeleteEffect(c, b, key);
    ChangeMirrors(c, a, b, Delete(a, key), ForgetKey(ManifestOf(c), Delete(b, key), key), key, None);
  }

  // ------------------------------------------------------------------ lookups

  lemma ServeRefines(c: string, a: Store, b: Store, key: string, adj: int, now: int)
    requires Refines(c, a, b) && key in a.entries
    ensures var (ra, a'), (rb, b') := Serve(AllKeys, a, a.entries[key], key, adj, now),
                                      Serve(ManifestOf(c), b, b.entries[key], key, adj, now);
            ra == rb && Refines(c, a', b')
  {
    var v := a.entries[key];
    if v.Token? && Expired(v, adj, now) {
      if Truthy(v.body.refreshToken) {
        OverwriteRefines(c, a, b, key, Token(Stripped(v.body), v.expiresAt));
      } else {
        DeleteRefines(c, a, b, key);
      }
    }
  }

  lemma {:induction false} SameRefreshToken(c: string, a: Store, b: Store, keys: seq<string>, k: CacheKey)
    requires Mirrors(c, a, b) && forall key :: key in keys ==> key in a.entries
    ensures FirstRefreshToken(a, keys, k) == FirstRefreshToken(b, keys, k)
  {
    if keys != [] {
      assert keys[0] in keys;
      SameRefreshToken(c, a, b, keys[1..], k);
    }
  }

  lemma {:induction false} SameHeldTokens(c: string, a: Store, b: Store, keys: seq<string>, audience: string)
    requires Mirrors(c, a, b) && forall key :: key in keys ==> key in a.entries
    ensures HeldTokens(a, keys, audience, c) == HeldTokens(b, keys, audience, c)
  {
    if keys != [] {
      assert keys[0] in keys;
      SameHeldTokens(c, a, b, keys[1..], audience);
    }
  }

  /** Both sides see the same key list, up to the difference between no manifest and no keys. */
  lemma SameKeys(c: string, a: Store, b: Store)
    requires Refines(c, a, b)
    ensures KeyList(AllKeys, a) == Some(a.order)
    ensures KeyList(ManifestOf(c), b) == if a.order == [] then None else Some(a.order)
    ensures forall key :: key in a.order ==> key in a.entries && key != ManifestKey(c)
  {
    RecordedFacts(c, b);
  }

  lemma SearchRefines(c: string, a: Store, b: Store, keys: seq<string>, k: CacheKey, adj: int, lend: bool, now: int)
    requires Refines(c, a, b) && keys == a.order
    ensures var (ra, a') := Search(AllKeys, a, keys, k, adj, lend, now);
            var (rb, b') := Search(ManifestOf(c), b, keys, k, adj, lend, now);
            ra == rb && Refines(c, a', b')
  {
    var found := FirstServing(keys, k);
    FirstServingIsFirst(keys, k);
    if found.Some? && found.value in a.entries {
      if a.entries[found.value].Token? {
        ResolvedKeyIsExact(found.value);
        ServeRefines(c, a, b, found.value, adj, now);
      }
    } else {
      SameRefreshToken(c, a, b, keys, k);
    }
  }

  lemma EmptySearch(a: Store, k: CacheKey, adj: int, lend: bool, now: int)
    ensures Search(AllKeys, a, [], k, adj, lend, now) == (None, a)
  {
  }

  lemma GetRefines(c: string, a: Store, b: Store, k: CacheKey, adj: int, mrrt: bool, only: bool, now: int)
    requires Refines(c, a, b) && !IsManifestKey(ManifestOf(c), ToKey(k))
    ensures var (ra, a') := Get(AllKeys, a, k, adj, mrrt, only, now);
            var (rb, b') := Get(ManifestOf(c), b, k, adj, mrrt, only, now);
            ra == rb && Refines(c, a', b')
  {
    SameKeys(c, a, b);
    if ToKey(k) in a.entries {
      ServeRefines(c, a, b, ToKey(k), adj, now);
    } else if a.order == [] {
      EmptySearch(a, k, adj, mrrt && !only, now);
    } else {
      SearchRefines(c, a, b, a.order, k, adj, mrrt && !only, now);
    }
  }

  lemma GetIdTokenRefines(c: string, a: Store, b: Store, k: CacheKey, now: int)
    requires Refines(c, a, b) && !IsManifestKey(ManifestOf(c), ToKey(k))
    requires IdTokenKey(OrElse(k.clientId, "")) != ManifestKey(c)
    ensures var (ra, a'), (rb, b') := GetIdToken(AllKeys, a, k, now), GetIdToken(ManifestOf(c), b, k, now);
            ra == rb && Refines(c, a', b')
  {
    GetRefines(c, a, b, k, 0, false, false, now);
  }

  // ------------------------------------------------------- writes to many entries

  lemma UpdateRefines(c: string, a: Store, b: Store, previous: string, next: string, mrrt: bool)
    requires Refines(c, a, b)
    ensures Refines(c,
              UpdateEntry(AllKeys, a, previous, next, c, mrrt),
              UpdateEntry(ManifestOf(c), b, previous, next, c, mrrt))
  {
    SameKeys(c, a, b);
    UpdateEntryKeepsInv(AllKeys, a, previous, next, c, mrrt);
    UpdateEntryKeepsInv(ManifestOf(c), b, previous, next, c, mrrt);
  }

  lemma StripRefines(c: string, a: Store, b: Store, token: string)
    requires Refines(c, a, b)
    ensures Refines(c, StripRefreshToken(AllKeys, a, token), StripRefreshToken(ManifestOf(c), b, token))
  {
    SameKeys(c, a, b);
    StripKeepsInv(AllKeys, a, token);
    StripKeepsInv(ManifestOf(c), b, token);
  }

  lemma ListingRefines(c: string, a: Store, b: Store, audience: string)
    requires Refines(c, a, b)
    ensures RefreshTokensByAudience(AllKeys, a, audience, c) == RefreshTokensByAudience(ManifestOf(c), b, audience, c)
  {
    SameKeys(c, a, b);
    SameHeldTokens(c, a, b, a.order, audience);
  }

  lemma EmptiedRefines(c: string, a: Store, b: Store)
    requires Inv(AllKeys, a) && Inv(ManifestOf(c), b)
    requires (forall key :: key !in a.entries) && (forall key :: key !in b.entries)
    ensures Refines(c, a, b)
  {
    if a.order != [] {
      OrderedKeyIsStored(a);
    }
  }

  lemma ClearRefines(c: string, a: Store, b: Store, id: Option<string>)
    requires Refines(c, a, b) && (id.None? || id == Some(c))
    ensures Refines(c, Clear(AllKeys, a, id), Clear(ManifestOf(c), b, id))
  {
    ClearEffect(AllKeys, a, id);
    ClearEffect(ManifestOf(c), b, id);
    ClearKeepsInvExactly(AllKeys, a, id);
    ClearKeepsInvExactly(ManifestOf(c), b, id);
    EmptiedRefines(c, Clear(AllKeys, a, id), Clear(ManifestOf(c), b, id));
  }

  lemma OrderedKeyIsStored(a: Store)
    requires Valid(AllKeys, a) && a.order != []
    ensures exists key :: key in a.entries
  {
    assert a.order[0] in a.entries;
  }

  // ------------------------------------------------------------------ whole runs

  lemma EntryKeyNamesClient(c: string, audience: string, scope: string)
    requires c != ""
    ensures Includes(ToKey(TokenKey(c, audience, scope)), c)
  {
    KeyNamesClient(TokenKey(c, audience, scope));
  }

  lemma KeyNamesClient(k: CacheKey)
    requires k.prefix != "" && Truthy(k.clientId)
    ensures Includes(ToKey(k), k.clientId.value)
  {
    var rest := Kept(k.audience) + Kept(k.scope) + Kept(k.suffix);
    var c := k.clientId.value;
    assert Parts(k) == [k.prefix] + ([c] + rest);
    JoinCons(k.prefix, [c] + rest, SEP);
    if rest == [] {
      assert [c] + rest == [c];
      assert ToKey(k) == (k.prefix + SEP) + c + "";
      IncludesMiddle(k.prefix + SEP, c, "");
    } else {
      JoinCons(c, rest, SEP);
      assert ToKey(k) == (k.prefix + SEP) + c + (SEP + Join(rest, SEP));
      IncludesMiddle(k.prefix + SEP, c, SEP + Join(rest, SEP));
    }
  }

  lemma IdTokenKeyFacts(c: string)
    requires Plain(c)
    ensures IdTokenKey(c) != ManifestKey(c) && Includes(IdTokenKey(c), c)
  {
    FixedKeyParts(c);
    KeyNamesClient(CacheKey(CACHE_KEY_PREFIX, Some(c), None, None, Some(CACHE_KEY_ID_TOKEN_SUFFIX)));
  }

  /** The operations of the refinement; id tokens are asked for under the client's own id. */
  ghost predicate OwnNoRemove(c: string, op: Op) {
    Own(c, op) && !op.DoRemove? && (op.DoGetIdToken? ==> op.k.clientId == Some(c))
  }

  lemma StepRefines(c: string, a: Store, b: Store, op: Op)
    requires Plain(c) && Refines(c, a, b) && OwnNoRemove(c, op)
    ensures var (ra, a'), (rb, b') := Step(AllKeys, c, a, op), Step(ManifestOf(c), c, b, op);
            ra == rb && Refines(c, a', b')
  {
    match op
    case DoGet(k, adj, mrrt, only, now) => GetRefines(c, a, b, k, adj, mrrt, only, now);
    case DoSet(e, now) =>
      EntryKeyNamesClient(c, e.audience, e.scope);
      PutNotedRefines(c, a, b, EntryKey(e), Stamped(e, now));
    case DoSetIdToken(e) =>
      IdTokenKeyFacts(c);
      PutNotedRefines(c, a, b, IdTokenKey(c), IdToken(e));
    case DoGetIdToken(k, now) =>
      IdTokenKeyFacts(c);
      GetIdTokenRefines(c, a, b, k, now);
    case DoUpdateEntry(previous, next, mrrt) => UpdateRefines(c, a, b, previous, next, mrrt);
    case DoStrip(token) => StripRefines(c, a, b, token);
    case DoListTokens(api) => ListingRefines(c, a, b, api);
    case DoClear(id) => ClearRefines(c, a, b, id);
    case DoRemove(_, _) =>
  }

  lemma {:induction false} RunRefines(c: string, a: Store, b: Store, ops: seq<Op>)
    requires Plain(c) && Refines(c, a, b) && forall op :: op in ops ==> OwnNoRemove(c, op)
    ensures Run(AllKeys, c, a, ops).0 == Run(ManifestOf(c), c, b, ops).0
    ensures Refines(c, Run(AllKeys, c, a, ops).1, Run(ManifestOf(c), c, b, ops).1)
    decreases |ops|
  {
    if ops != [] {
      assert ops[0] in ops;
      StepRefines(c, a, b, ops[0]);
      RunRefines(c, Step(AllKeys, c, a, ops[0]).1, Step(ManifestOf(c), c, b, ops[0]).1, ops[1..]);
    }
  }

  /**
   * Starting empty, every sequence of the client's own operations other than `remove` gives the same
   * results, in the same match order, with a manifest as with a cache that lists its keys.
   */
  lemma ManifestRefinesAllKeys(c: string, ops: seq<Op>)
    requires Plain(c) && forall op :: op in ops ==> OwnNoRemove(c, op)
    ensures Run(AllKeys, c, EMPTY, ops).0 == Run(ManifestOf(c), c, EMPTY, ops).0
  {
    RunRefines(c, EMPTY, EMPTY, ops);
  }

  // ---------------------------------------------------------- runs with `remove`

  /** Every entry of client `c` is listed and names the client. */
  ghost predicate AllListed(c: string, st: Store) {
    Inv(ManifestOf(c), st) && forall key :: key in st.entries && key != ManifestKey(c) ==> Includes(key, c)
  }

  lemma LookupKeepsListed(c: string, st: Store, k: CacheKey, adj: int, mrrt: bool, only: bool, now: int)
    requires AllListed(c, st)
    ensures AllListed(c, Get(ManifestOf(c), st, k, adj, mrrt, only, now).1)
  {
    var key := GetEffect(ManifestOf(c), st, k, adj, mrrt, only, now);
    GetKeepsInv(ManifestOf(c), st, k, adj, mrrt, only, now);
    if ServedFrom(st, k, key) {
      TouchedKeepsInv(ManifestOf(c), st, key, adj, now, Get(ManifestOf(c), st, k, adj, mrrt, only, now).1);
    }
  }

  lemma PutKeepsListed(c: string, st: Store, key: string, v: Value)
    requires AllListed(c, st) && key != ManifestKey(c) && Includes(key, c) && (v.Token? ==> Restorable(key))
    ensures AllListed(c, PutNoted(ManifestOf(c), st, key, v))
  {
    NotedPutKeepsInv(ManifestOf(c), st, key, v);
    ManifestPutEffect(c, st, key, v);
  }

  lemma StepKeepsListed(c: string, st: Store, op: Op)
    requires Plain(c) && AllListed(c, st) && Own(c, op)
    ensures AllListed(c, Step(ManifestOf(c), c, st, op).1)
  {
    match op
    case DoGet(k, adj, mrrt, only, now) => LookupKeepsListed(c, st, k, adj, mrrt, only, now);
    case DoSet(e, now) =>
      EntryKeyNamesClient(c, e.audience, e.scope);
      PutKeepsListed(c, st, EntryKey(e), Stamped(e, now));
    case DoSetIdToken(e) =>
      IdTokenKeyFacts(c);
      PutKeepsListed(c, st, IdTokenKey(c), IdToken(e));
    case DoGetIdToken(k, now) => LookupKeepsListed(c, st, k, 0, false, false, now);
    case DoUpdateEntry(previous, next, mrrt) => UpdateEntryKeepsInv(ManifestOf(c), st, previous, next, c, mrrt);
    case DoStrip(token) => StripKeepsInv(ManifestOf(c), st, token);
    case DoListTokens(_) =>
    case DoClear(id) =>
      ClearEffect(ManifestOf(c), st, id);
      ClearKeepsInvExactly(ManifestOf(c), st, id);
    case DoRemove(audience, scope) =>
      BareDeleteKeepsInv(ManifestOf(c), st, ToKey(CacheKey(CACHE_KEY_PREFIX, Some(c), audience, scope, None)));
  }

  /** With `remove` allowed the manifest may list too much, but never too little. */
  lemma {:induction false} EverythingStoredStaysListed(c: string, st: Store, ops: seq<Op>)
    requires Plain(c) && AllListed(c, st) && forall op :: op in ops ==> Own(c, op)
    ensures var last := Run(ManifestOf(c), c, st, ops).1;
            forall key :: key in last.entries && key != ManifestKey(c) ==> key in Recorded(last, c)
    ensures AllListed(c, Run(ManifestOf(c), c, st, ops).1)
    decreases |ops|
  {
    if ops != [] {
      assert ops[0] in ops;
      StepKeepsListed(c, st, ops[0]);
      EverythingStoredStaysListed(c, Step(ManifestOf(c), c, st, ops[0]).1, ops[1..]);
    }
    RecordedFacts(c, Run(ManifestOf(c), c, st, ops).1);
  }
}
