/** Every cache operation keeps the store well formed and every entry visible to the index. */
module StoreInvariants {
  import opened Prelude
  import opened Text
  import opened CacheKeys
  import opened TokenStore

  lemma PutKeepsOrder(st: Store, key: string, v: Value)
    requires Valid(AllKeys, st)
    ensures Valid(AllKeys, Put(st, key, v))
  {
    AddKeyKeepsDistinct(st.order, key);
  }

  lemma DeleteKeepsOrder(st: Store, key: string)
    requires Valid(AllKeys, st)
    ensures Valid(AllKeys, Delete(st, key))
  {
    RemoveKeyKeepsDistinct(st.order, key);
  }

  /** Writing a key set that covers everything stored restores the invariant. */
  lemma ManifestWriteGivesInv(c: string, st: Store, keys: seq<string>)
    requires Valid(AllKeys, st) && AllRestorable(st)
    requires ManifestShape(keys, ManifestKey(c))
    requires forall key :: key in st.entries && key != ManifestKey(c) ==> key in keys
    ensures Inv(ManifestOf(c), Put(st, ManifestKey(c), Manifest(keys)))
  {
    PutKeepsOrder(st, ManifestKey(c), Manifest(keys));
  }

  lemma NoManifestGivesInv(c: string, st: Store)
    requires Valid(AllKeys, st) && AllRestorable(st)
    requires forall key :: key in st.entries ==> key == ManifestKey(c)
    ensures Inv(ManifestOf(c), Delete(st, ManifestKey(c)))
  {
    DeleteKeepsOrder(st, ManifestKey(c));
  }

  /** The recorded key set, empty when there is no manifest entry. */
  function Recorded(st: Store, c: string): seq<string> {
    var known := ManifestKeys(st, c);
    if known.Some? then known.value else []
  }

  lemma RecordedFacts(c: string, st: Store)
    requires Inv(ManifestOf(c), st)
    ensures Distinct(Recorded(st, c)) && Dedupe(Recorded(st, c)) == Recorded(st, c)
    ensures ManifestKey(c) !in Recorded(st, c)
    ensures forall key :: key in st.entries && key != ManifestKey(c) ==> key in Recorded(st, c)
    ensures ManifestKey(c) in st.entries <==> Recorded(st, c) != []
  {
    DedupeOfDistinct(Recorded(st, c));
  }

  /** Storing an entry and noting its key. */
  lemma NotedPutKeepsInv(ix: Index, st: Store, key: string, v: Value)
    requires Inv(ix, st) && !IsManifestKey(ix, key)
    requires v.Token? ==> Restorable(key)
    ensures Inv(ix, PutNoted(ix, st, key, v))
  {
    PutKeepsOrder(st, key, v);
    if ix.ManifestOf? {
      var c, st1 := ix.clientId, Put(st, key, v);
      RecordedFacts(c, st);
      AddKeyKeepsDistinct(Recorded(st, c), key);
      assert Recorded(st1, c) == Recorded(st, c);
      ManifestWriteGivesInv(c, st1, AddKey(Recorded(st, c), key));
    }
  }

  /** Replacing the value of an entry that is already there. */
  lemma OverwriteKeepsInv(ix: Index, st: Store, key: string, v: Value)
    requires Inv(ix, st) && key in st.entries && st.entries[key].Token? && v.Token?
    ensures Inv(ix, Put(st, key, v))
    ensures Put(st, key, v).order == st.order && KeyList(ix, Put(st, key, v)) == KeyList(ix, st)
  {
  }

  /** Deleting an entry and forgetting its key. */
  lemma ForgottenDeleteKeepsInv(ix: Index, st: Store, key: string)
    requires Inv(ix, st) && !IsManifestKey(ix, key)
    ensures Inv(ix, ForgetKey(ix, Delete(st, key), key))
  {
    DeleteKeepsOrder(st, key);
    if ix.ManifestOf? {
      var c, st1 := ix.clientId, Delete(st, key);
      RecordedFacts(c, st);
      assert Recorded(st1, c) == Recorded(st, c);
      var keys := RemoveKey(Recorded(st, c), key);
      RemoveKeyKeepsDistinct(Recorded(st, c), key);
      if keys != [] {
        ManifestWriteGivesInv(c, st1, keys);
      } else if ManifestKey(c) in st1.entries {
        NoManifestGivesInv(c, st1);
      }
    }
  }

  /** `CacheManager.remove` leaves its key in the manifest, which still lists everything stored. */
  lemma BareDeleteKeepsInv(ix: Index, st: Store, key: string)
    requires Inv(ix, st) && !IsManifestKey(ix, key)
    ensures Inv(ix, Delete(st, key))
  {
    DeleteKeepsOrder(st, key);
  }

  lemma {:induction false} DeleteAllEffect(st: Store, keys: seq<string>)
    requires Valid(AllKeys, st)
    ensures Valid(AllKeys, DeleteAll(st, keys))
    ensures forall k :: k in DeleteAll(st, keys).entries <==> k in st.entries && k !in keys
    ensures forall k :: k in DeleteAll(st, keys).entries ==> DeleteAll(st, keys).entries[k] == st.entries[k]
    decreases |keys|
  {
    if keys != [] {
      DeleteKeepsOrder(st, keys[0]);
      DeleteAllEffect(Delete(st, keys[0]), keys[1..]);
    }
  }

  lemma {:induction false} FirstServingIsFirst(keys: seq<string>, k: CacheKey)
    ensures var f := FirstServing(keys, k);
            if f.Some? then f.value in keys && Serves(f.value, k) else forall key :: key in keys ==> !Serves(key, k)
  {
    if keys != [] {
      FirstServingIsFirst(keys[1..], k);
      assert keys == [keys[0]] + keys[1..];
    }
  }

  /** Scope matching takes the first listed key that serves the request, and none only if none does. */
  lemma {:induction false} FirstServingExactly(keys: seq<string>, k: CacheKey, i: nat)
    requires i < |keys| && forall j :: 0 <= j < i ==> !Serves(keys[j], k)
    ensures Serves(keys[i], k) ==> FirstServing(keys, k) == Some(keys[i])
  {
    if i > 0 {
      FirstServingExactly(keys[1..], k, i - 1);
    }
  }

  /** A token entry that a lookup of `k` may resolve to. */
  ghost predicate ServedFrom(st: Store, k: CacheKey, key: string) {
    key in st.entries && st.entries[key].Token? && (key == ToKey(k) || Serves(key, k))
  }

  /** What serving an entry leaves: itself while it is fresh, its refresh token once expired, or nothing. */
  ghost predicate Touched(ix: Index, st: Store, key: string, adj: int, now: int, st': Store)
    requires key in st.entries && st.entries[key].Token?
  {
    var v := st.entries[key];
    if !Expired(v, adj, now) then st' == st
    else if Truthy(v.body.refreshToken) then st' == Put(st, key, Token(Stripped(v.body), v.expiresAt))
    else st' == ForgetKey(ix, Delete(st, key), key)
  }

  /** A result that carries an access token. */
  predicate Grants(r: Option<Body>) {
    r.Some? && Truthy(r.value.accessToken)
  }

  lemma ServeEffect(ix: Index, st: Store, key: string, adj: int, now: int)
    requires key in st.entries
    ensures var (r, st') := Serve(ix, st, st.entries[key], key, adj, now);
            && (st.entries[key].Token? ==> Touched(ix, st, key, adj, now, st'))
            && (!st.entries[key].Token? ==> st' == st)
            && (Grants(r) ==>
                 st.entries[key].Token? && r.value == st.entries[key].body && !Expired(st.entries[key], adj, now))
  {
  }

  lemma GetEffect(ix: Index, st: Store, k: CacheKey, adj: int, useMrrt: bool, cacheOnly: bool, now: int)
    returns (key: string)
    requires AllRestorable(st)
    ensures var (r, st') := Get(ix, st, k, adj, useMrrt, cacheOnly, now);
            && (ServedFrom(st, k, key) ==> Touched(ix, st, key, adj, now, st'))
            && (!ServedFrom(st, k, key) ==> st' == st)
            && (Grants(r) ==>
                 ServedFrom(st, k, key) && r.value == st.entries[key].body && !Expired(st.entries[key], adj, now))
  {
    key := ToKey(k);
    if key in st.entries {
      ServeEffect(ix, st, key, adj, now);
    } else if KeyList(ix, st).Some? {
      var keys := KeyList(ix, st).value;
      var found := FirstServing(keys, k);
      FirstServingIsFirst(keys, k);
      if found.Some? && found.value in st.entries {
        key := found.value;
        ResolvedKeyIsExact(key);
        ServeEffect(ix, st, key, adj, now);
        if !st.entries[key].Token? {
          assert Get(ix, st, k, adj, useMrrt, cacheOnly, now) == (None, st);
        }
      } else {
        FirstRefreshTokenIsLent(st, keys, k);
      }
    }
  }

  lemma {:induction false} FirstRefreshTokenIsLent(st: Store, keys: seq<string>, k: CacheKey)
    ensures var b := FirstRefreshToken(st, keys, k);
            (b.Some? ==> (exists key ::
               key in keys && LendsRefreshToken(st, key, k) && b.value == Stripped(st.entries[key].body)))
    ensures FirstRefreshToken(st, keys, k).None? ==> forall key :: key in keys ==> !LendsRefreshToken(st, key, k)
  {
    if keys != [] {
      assert keys == [keys[0]] + keys[1..];
      if LendsRefreshToken(st, keys[0], k) {
        assert keys[0] in keys;
      } else {
        FirstRefreshTokenIsLent(st, keys[1..], k);
      }
    }
  }

  lemma TouchedKeepsInv(ix: Index, st: Store, key: string, adj: int, now: int, st': Store)
    requires Inv(ix, st) && key in st.entries && st.entries[key].Token? && Touched(ix, st, key, adj, now, st')
    ensures Inv(ix, st')
    ensures st'.entries.Keys <= st.entries.Keys
    ensures forall other :: other in st.entries && other != key && !IsManifestKey(ix, other) ==>
              other in st'.entries && st'.entries[other] == st.entries[other]
    ensures Expired(st.entries[key], adj, now) && !Truthy(st.entries[key].body.refreshToken) ==> key !in st'.entries
  {
    var v := st.entries[key];
    if Expired(v, adj, now) {
      if Truthy(v.body.refreshToken) {
        OverwriteKeepsInv(ix, st, key, Token(Stripped(v.body), v.expiresAt));
      } else {
        ForgottenDeleteKeepsInv(ix, st, key);
      }
    }
  }

  lemma GetKeepsInv(ix: Index, st: Store, k: CacheKey, adj: int, useMrrt: bool, cacheOnly: bool, now: int)
    requires Inv(ix, st)
    ensures Inv(ix, Get(ix, st, k, adj, useMrrt, cacheOnly, now).1)
  {
    var key := GetEffect(ix, st, k, adj, useMrrt, cacheOnly, now);
    if ServedFrom(st, k, key) {
      TouchedKeepsInv(ix, st, key, adj, now, Get(ix, st, k, adj, useMrrt, cacheOnly, now).1);
    }
  }

  /** The entry answers the request: same client, same audience, at least the scopes asked for. */
  ghost predicate Answers(st: Store, k: CacheKey, key: string) {
    && key in st.entries && st.entries[key].Token?
    && FromKey(key).prefix == CACHE_KEY_PREFIX
    && FromKey(key).clientId == k.clientId && FromKey(key).audience == k.audience
    && forall s :: s in ScopeWords(k.scope) ==> s in ScopeWords(FromKey(key).scope)
  }

  /** The verdict of a lookup: what it returned, and what became of the one entry it may alter. */
  ghost predicate SoundLookup(
      ix: Index, st: Store, k: CacheKey, hit: string, r: Option<Body>, st': Store, adj: int, now: int) {
    && (Grants(r) ==>
         && Answers(st, k, hit) && r.value == st.entries[hit].body && st' == st
         && st.entries[hit].expiresAt - adj >= FloorSeconds(now))
    && st'.entries.Keys <= st.entries.Keys
    && (forall key :: key in st.entries && key != hit && !IsManifestKey(ix, key) ==>
         key in st'.entries && st'.entries[key] == st.entries[key])
    && (st' != st ==>
         && Answers(st, k, hit) && Expired(st.entries[hit], adj, now)
         && (hit in st'.entries <==> Truthy(st.entries[hit].body.refreshToken))
         && (hit in st'.entries ==>
              st'.entries[hit] == Token(Stripped(st.entries[hit].body), st.entries[hit].expiresAt)))
  }

  lemma EffectIsSound(ix: Index, st: Store, k: CacheKey, hit: string, r: Option<Body>, st': Store, adj: int, now: int)
    requires Inv(ix, st)
    requires Answers(st, k, hit) && Touched(ix, st, hit, adj, now, st')
    requires Grants(r) ==> r.value == st.entries[hit].body && !Expired(st.entries[hit], adj, now)
    ensures SoundLookup(ix, st, k, hit, r, st', adj, now)
  {
    TouchedKeepsInv(ix, st, hit, adj, now, st');
  }

  /** An entry that answers and has a scope in its key is one that scope matching may choose. */
  lemma AnswersAreServed(st: Store, k: CacheKey, key: string)
    requires Answers(st, k, key) && Truthy(FromKey(key).scope)
    ensures Serves(key, k)
  {
  }

  lemma ServedAnswers(st: Store, k: CacheKey, key: string)
    requires k.prefix == CACHE_KEY_PREFIX && Representable(k) && ServedFrom(st, k, key)
    ensures Answers(st, k, key)
  {
    FromKeyInvertsToKeyExactly(k);
  }

  /**
   * Lookup is sound and leaves no ghosts. A result with an access token is the body of a stored,
   * unexpired entry, `hit`, that answers the request. The lookup adds no key, and apart from the
   * manifest it alters nothing but `hit`, which then answers the request and has expired: it is
   * stripped to refresh token, audience and scope, or removed when it holds no refresh token.
   */
  lemma LookupIsSound(ix: Index, st: Store, k: CacheKey, adj: int, useMrrt: bool, cacheOnly: bool, now: int)
    returns (hit: string)
    requires Inv(ix, st)
    requires k.prefix == CACHE_KEY_PREFIX && Representable(k)
    ensures var (r, st') := Get(ix, st, k, adj, useMrrt, cacheOnly, now);
            SoundLookup(ix, st, k, hit, r, st', adj, now)
  {
    hit := GetEffect(ix, st, k, adj, useMrrt, cacheOnly, now);
    var (r, st') := Get(ix, st, k, adj, useMrrt, cacheOnly, now);
    if ServedFrom(st, k, hit) {
      ServedAnswers(st, k, hit);
      EffectIsSound(ix, st, k, hit, r, st', adj, now);
    }
  }

  /** The index lists nothing that is not stored. `remove` is the one operation that breaks this. */
  ghost predicate NoDangling(ix: Index, st: Store) {
    KeyList(ix, st).Some? ==> forall key :: key in KeyList(ix, st).value ==> key in st.entries
  }

  /**
   * Lookup is complete as long as no listed key dangles: when some entry answers the request and
   * every entry that answers is fresh and holds an access token, the lookup returns one.
   */
  lemma LookupIsComplete(
      ix: Index, st: Store, k: CacheKey, adj: int, useMrrt: bool, cacheOnly: bool, now: int, answer: string)
    requires Inv(ix, st) && NoDangling(ix, st)
    requires k.prefix == CACHE_KEY_PREFIX && Representable(k)
    requires answer in st.entries && st.entries[answer].Token? && Serves(answer, k)
    requires forall key :: ServedFrom(st, k, key) ==>
      !Expired(st.entries[key], adj, now) && Truthy(st.entries[key].body.accessToken)
    requires forall key :: key in st.entries && Serves(key, k) ==> st.entries[key].Token?
    requires ToKey(k) in st.entries ==> st.entries[ToKey(k)].Token?
    ensures Grants(Get(ix, st, k, adj, useMrrt, cacheOnly, now).0)
  {
    if ToKey(k) in st.entries {
      assert ServedFrom(st, k, ToKey(k));
    } else {
      var keys := KeyList(ix, st).value;
      assert !IsManifestKey(ix, answer);
      assert answer in keys;
      FirstServingIsFirst(keys, k);
      assert ServedFrom(st, k, FirstServing(keys, k).value);
    }
  }

  /** The key a lookup resolves to: its own if that is stored, else the first listed one that serves it. */
  function Resolved(ix: Index, st: Store, k: CacheKey): Option<string> {
    if ToKey(k) in st.entries then Some(ToKey(k))
    else if KeyList(ix, st).None? then None
    else FirstServing(KeyList(ix, st).value, k)
  }

  /** A stored, unexpired entry with an access token. */
  predicate Fresh(st: Store, key: string, adj: int, now: int) {
    && key in st.entries && st.entries[key].Token?
    && !Expired(st.entries[key], adj, now) && Truthy(st.entries[key].body.accessToken)
  }

  /**
   * Exactly when a lookup returns an access token, for any store and key list: the one key it resolves
   * to is stored, unexpired and has one. Entries further down the list never count, even if that key is
   * not stored at all.
   */
  lemma GrantedExactly(ix: Index, st: Store, k: CacheKey, adj: int, useMrrt: bool, cacheOnly: bool, now: int)
    ensures Grants(Get(ix, st, k, adj, useMrrt, cacheOnly, now).0)
      <==> Resolved(ix, st, k).Some? && Fresh(st, Resolved(ix, st, k).value, adj, now)
  {
    if ToKey(k) !in st.entries && KeyList(ix, st).Some? {
      SearchGrantsExactly(ix, st, KeyList(ix, st).value, k, adj, useMrrt && !cacheOnly, now);
    }
  }

  lemma SearchGrantsExactly(ix: Index, st: Store, keys: seq<string>, k: CacheKey, adj: int, lend: bool, now: int)
    ensures Grants(Search(ix, st, keys, k, adj, lend, now).0)
      <==> FirstServing(keys, k).Some? && Fresh(st, FirstServing(keys, k).value, adj, now)
  {
    LentHasNoAccessToken(st, keys, k);
  }

  lemma {:induction false} LentHasNoAccessToken(st: Store, keys: seq<string>, k: CacheKey)
    ensures !Grants(FirstRefreshToken(st, keys, k))
  {
    if keys != [] {
      LentHasNoAccessToken(st, keys[1..], k);
    }
  }

  // ------------------------------------------------- the refresh token a lookup gives

  predicate HoldsRefreshToken(st: Store, key: string) {
    key in st.entries && st.entries[key].Token? && Truthy(st.entries[key].body.refreshToken)
  }

  /** The listed entry `i` is one of the client's, whatever its audience and scope, and holds a refresh token. */
  predicate Lender(st: Store, keys: seq<string>, i: nat, k: CacheKey) {
    && i < |keys| && FromKey(keys[i]).prefix == "@@auth0spajs@@" && FromKey(keys[i]).clientId == k.clientId
    && HoldsRefreshToken(st, keys[i])
  }

  ghost predicate FirstLender(st: Store, keys: seq<string>, i: nat, k: CacheKey) {
    Lender(st, keys, i, k) && forall j: nat :: j < i ==> !Lender(st, keys, j, k)
  }

  /** What is lent of an entry, and kept of an expired one. */
  function Lent(st: Store, key: string): Body
    requires HoldsRefreshToken(st, key)
  {
    var body := st.entries[key].body;
    Body(None, body.refreshToken, body.audience, body.scope, None, None)
  }

  /** The lookup resolves to a key that is stored. */
  predicate ResolvesToStored(ix: Index, st: Store, k: CacheKey) {
    Resolved(ix, st, k).Some? && Resolved(ix, st, k).value in st.entries
  }

  lemma {:induction false} LenderOfTail(st: Store, keys: seq<string>, k: CacheKey) returns (i: nat)
    ensures var b := FirstRefreshToken(st, keys, k);
            if b.Some? then
              FirstLender(st, keys, i, k) && b.value == Lent(st, keys[i])
            else forall j: nat :: !Lender(st, keys, j, k)
  {
    i := 0;
    if keys == [] || Lender(st, keys, 0, k) {
      return;
    }
    var rest := LenderOfTail(st, keys[1..], k);
    assert forall j: nat :: 0 < j ==> (Lender(st, keys, j, k) <==> Lender(st, keys[1..], j - 1, k));
    i := rest + 1;
  }

  /**
   * A lookup that resolves to nothing stored lends a refresh token exactly when multi-resource refresh is on,
   * the server may be asked, and some listed entry of the client holds one. It is that of the first such
   * entry, with its audience and scope and without anything else, and the cache does not change.
   */
  lemma LendsExactly(ix: Index, st: Store, k: CacheKey, adj: int, useMrrt: bool, cacheOnly: bool, now: int)
    requires !ResolvesToStored(ix, st, k)
    ensures Get(ix, st, k, adj, useMrrt, cacheOnly, now).1 == st
    ensures var keys := if KeyList(ix, st).Some? then KeyList(ix, st).value else [];
            var r := Get(ix, st, k, adj, useMrrt, cacheOnly, now).0;
            && (r.Some? <==> useMrrt && !cacheOnly && exists i: nat :: Lender(st, keys, i, k))
            && (r.Some? ==> exists i: nat :: FirstLender(st, keys, i, k) && r.value == Lent(st, keys[i]))
  {
    if KeyList(ix, st).Some? {
      var i := LenderOfTail(st, KeyList(ix, st).value, k);
    }
  }

  /**
   * The refresh token a lookup finds: that of the entry it resolves to, expired or not, or else, with
   * multi-resource refresh, the first one that is lent.
   */
  ghost predicate TokenFound(ix: Index, st: Store, k: CacheKey, useMrrt: bool, token: string) {
    if ResolvesToStored(ix, st, k) then
      var found := Resolved(ix, st, k).value;
      HoldsRefreshToken(st, found) && st.entries[found].body.refreshToken.value == token
    else
      && useMrrt && KeyList(ix, st).Some?
      && exists i: nat :: FirstLender(st, KeyList(ix, st).value, i, k)
           && st.entries[KeyList(ix, st).value[i]].body.refreshToken.value == token
  }

  lemma OneFirstLender(st: Store, keys: seq<string>, i: nat, j: nat, k: CacheKey)
    requires FirstLender(st, keys, i, k) && FirstLender(st, keys, j, k)
    ensures i == j
  {
  }

  lemma LentTokenFound(st: Store, keys: seq<string>, k: CacheKey, token: string)
    ensures var b := FirstRefreshToken(st, keys, k);
            (exists i: nat :: FirstLender(st, keys, i, k) && st.entries[keys[i]].body.refreshToken.value == token)
            <==> b.Some? && Truthy(b.value.refreshToken) && b.value.refreshToken.value == token
  {
    var i := LenderOfTail(st, keys, k);
    if j: nat :| FirstLender(st, keys, j, k) {
      if FirstRefreshToken(st, keys, k).Some? {
        OneFirstLender(st, keys, i, j, k);
      }
    }
  }

  lemma ServedToken(ix: Index, st: Store, found: string, key: string, adj: int, now: int, token: string)
    requires found in st.entries
    ensures var r := Serve(ix, st, st.entries[found], key, adj, now).0;
            (HoldsRefreshToken(st, found) && st.entries[found].body.refreshToken.value == token)
            <==> r.Some? && Truthy(r.value.refreshToken) && r.value.refreshToken.value == token
  {
  }

  lemma TokenFoundExactly(ix: Index, st: Store, k: CacheKey, adj: int, useMrrt: bool, now: int, token: string)
    ensures var r := Get(ix, st, k, adj, useMrrt, false, now).0;
            TokenFound(ix, st, k, useMrrt, token)
            <==> r.Some? && Truthy(r.value.refreshToken) && r.value.refreshToken.value == token
  {
    if ResolvesToStored(ix, st, k) {
      var found := Resolved(ix, st, k).value;
      ServedToken(ix, st, found, if ToKey(k) in st.entries then found else ToKey(FromKey(found)), adj, now, token);
    } else if KeyList(ix, st).Some? {
      LentTokenFound(st, KeyList(ix, st).value, k, token);
    }
  }

  lemma GetServesResolved(ix: Index, st: Store, k: CacheKey, adj: int, useMrrt: bool, cacheOnly: bool, now: int)
    requires AllRestorable(st) && ResolvesToStored(ix, st, k)
    requires st.entries[Resolved(ix, st, k).value].Token?
    ensures var found := Resolved(ix, st, k).value;
            Get(ix, st, k, adj, useMrrt, cacheOnly, now) == Serve(ix, st, st.entries[found], found, adj, now)
  {
    ResolvedKeyIsExact(Resolved(ix, st, k).value);
  }

  lemma ForgottenIsGone(ix: Index, st: Store, found: string)
    requires !IsManifestKey(ix, found)
    ensures var st' := ForgetKey(ix, Delete(st, found), found);
            forall key :: !IsManifestKey(ix, key) ==>
              (key in st'.entries <==> key in st.entries && key != found)
              && (key in st'.entries ==> st'.entries[key] == st.entries[key])
  {
  }

  /**
   * What a lookup makes of the stored entry it resolves to: a fresh one is returned as it is; an expired one
   * gives up its access token and keeps its refresh token, or goes if it has none.
   */
  lemma ServesExactly(ix: Index, st: Store, k: CacheKey, adj: int, useMrrt: bool, cacheOnly: bool, now: int)
    requires AllRestorable(st) && ResolvesToStored(ix, st, k)
    requires var found := Resolved(ix, st, k).value; st.entries[found].Token? && !IsManifestKey(ix, found)
    ensures var found := Resolved(ix, st, k).value;
            var (r, st') := Get(ix, st, k, adj, useMrrt, cacheOnly, now);
            if FloorSeconds(now) <= st.entries[found].expiresAt - adj then
              r == Some(st.entries[found].body) && st' == st
            else if HoldsRefreshToken(st, found) then
              && r == Some(Lent(st, found))
              && st'.entries == st.entries[found := Token(Lent(st, found), st.entries[found].expiresAt)]
            else
              && r == None
              && forall key :: !IsManifestKey(ix, key) ==>
                   (key in st'.entries <==> key in st.entries && key != found)
                   && (key in st'.entries ==> st'.entries[key] == st.entries[key])
  {
    GetServesResolved(ix, st, k, adj, useMrrt, cacheOnly, now);
    ForgottenIsGone(ix, st, Resolved(ix, st, k).value);
  }

  /**
   * A listed key that is not stored hides every entry listed after it: although `later` is stored, fresh
   * and answers the request, the lookup returns no access token.
   */
  lemma DanglingKeyShadows(
      ix: Index, st: Store, k: CacheKey, adj: int, useMrrt: bool, cacheOnly: bool, now: int,
      before: seq<string>, dangling: string, after: seq<string>, later: string)
    requires ToKey(k) !in st.entries && KeyList(ix, st) == Some(before + [dangling] + after)
    requires dangling !in st.entries && Serves(dangling, k) && forall key :: key in before ==> !Serves(key, k)
    requires later in after && Serves(later, k) && Fresh(st, later, adj, now)
    ensures !Grants(Get(ix, st, k, adj, useMrrt, cacheOnly, now).0)
  {
    FirstServingAfter(before, dangling, after, k);
    GrantedExactly(ix, st, k, adj, useMrrt, cacheOnly, now);
  }

  lemma {:induction false} FirstServingAfter(before: seq<string>, key: string, after: seq<string>, k: CacheKey)
    requires Serves(key, k) && forall other :: other in before ==> !Serves(other, k)
    ensures FirstServing(before + [key] + after, k) == Some(key)
  {
    if before == [] {
      assert before + [key] + after == [key] + after;
    } else {
      assert before[0] in before;
      assert (before + [key] + after)[1..] == before[1..] + [key] + after;
      FirstServingAfter(before[1..], key, after, k);
    }
  }

  /** A key listed later does not change what a lookup resolves to. */
  lemma {:induction false} FirstServingOfLonger(keys: seq<string>, key: string, k: CacheKey)
    requires FirstServing(keys, k).Some?
    ensures FirstServing(keys + [key], k) == FirstServing(keys, k)
  {
    if !Serves(keys[0], k) {
      FirstServingOfLonger(keys[1..], key, k);
      assert (keys + [key])[1..] == keys[1..] + [key];
    }
  }

  // ------------------------------------------------- entries written by a lookup

  /**
   * The lookup resolves to an expired entry with a refresh token, under a key the codec cannot restore,
   * and nothing is stored under the key that it restores instead.
   */
  predicate WritesElsewhere(ix: Index, st: Store, k: CacheKey, adj: int, now: int) {
    ToKey(k) !in st.entries && Resolved(ix, st, k).Some? &&
    var found := Resolved(ix, st, k).value;
    && found in st.entries && st.entries[found].Token?
    && Expired(st.entries[found], adj, now) && Truthy(st.entries[found].body.refreshToken)
    && !Restorable(found) && ToKey(FromKey(found)) !in st.entries
  }

  /** A lookup adds a key in exactly that case; the found entry then stays, and its strip is stored beside it. */
  lemma LookupAddsKeyExactly(ix: Index, st: Store, k: CacheKey, adj: int, useMrrt: bool, cacheOnly: bool, now: int)
    ensures var st' := Get(ix, st, k, adj, useMrrt, cacheOnly, now).1;
            && (!(st'.entries.Keys <= st.entries.Keys) <==> WritesElsewhere(ix, st, k, adj, now))
            && (WritesElsewhere(ix, st, k, adj, now) ==>
                 var found := Resolved(ix, st, k).value;
                 var restored := ToKey(FromKey(found));
                 && found in st'.entries && st'.entries[found] == st.entries[found] && restored in st'.entries
                 && st'.entries[restored] == Token(Stripped(st.entries[found].body), st.entries[found].expiresAt))
  {
    var resolved := Resolved(ix, st, k);
    if ToKey(k) !in st.entries && resolved.Some? && resolved.value in st.entries {
      ResolvedKeyIsExact(resolved.value);
      ServeAddsKeyExactly(ix, st, resolved.value, ToKey(FromKey(resolved.value)), adj, now);
    } else if ToKey(k) in st.entries {
      ServeAddsKeyExactly(ix, st, ToKey(k), ToKey(k), adj, now);
    }
  }

  lemma ServeAddsKeyExactly(ix: Index, st: Store, found: string, key: string, adj: int, now: int)
    requires found in st.entries
    ensures var v, st' := st.entries[found], Serve(ix, st, st.entries[found], key, adj, now).1;
            && (key !in st'.entries || key in st.entries
                || (v.Token? && Expired(v, adj, now) && Truthy(v.body.refreshToken)))
            && (forall other :: other in st'.entries && other != key ==> other in st.entries)
            && (v.Token? && Expired(v, adj, now) && Truthy(v.body.refreshToken) ==>
                 st' == Put(st, key, Token(Stripped(v.body), v.expiresAt)))
  {
  }

  /**
   * With `::` inside a scope the strip of an expired entry is stored under the key for the part of the
   * scope before `::`, and the full entry stays.
   */
  lemma SeparatorInScopeLeavesGhost(
      ix: Index, st: Store, c: string, a: string, s: string, t: string, k: CacheKey,
      adj: int, useMrrt: bool, cacheOnly: bool, now: int)
    requires Plain(c) && Plain(a) && Plain(s) && Plain(t) && ToKey(k) !in st.entries
    requires Resolved(ix, st, k) == Some(ToKey(TokenKey(c, a, s + SEP + t)))
    requires var full := ToKey(TokenKey(c, a, s + SEP + t));
             && full in st.entries && st.entries[full].Token?
             && Expired(st.entries[full], adj, now) && Truthy(st.entries[full].body.refreshToken)
    requires ToKey(TokenKey(c, a, s)) !in st.entries
    ensures var full, part := ToKey(TokenKey(c, a, s + SEP + t)), ToKey(TokenKey(c, a, s));
            var st' := Get(ix, st, k, adj, useMrrt, cacheOnly, now).1;
            && full != part && full in st'.entries && st'.entries[full] == st.entries[full] && part in st'.entries
            && st'.entries[part] == Token(Stripped(st.entries[full].body), st.entries[full].expiresAt)
  {
    GhostOfSeparator(c, a, s, t);
    LookupAddsKeyExactly(ix, st, k, adj, useMrrt, cacheOnly, now);
  }

  lemma GhostOfSeparator(c: string, a: string, s: string, t: string)
    requires Plain(c) && Plain(a) && Plain(s) && Plain(t)
    ensures var full, part := ToKey(TokenKey(c, a, s + SEP + t)), ToKey(TokenKey(c, a, s));
            FromKey(full) == TokenKey(c, a, s) && ToKey(FromKey(full)) == part && part != full && !Restorable(full)
  {
    NoColonIsPlain(CACHE_KEY_PREFIX);
    GhostOfFivePartKey(CACHE_KEY_PREFIX, c, a, s, t);
  }

  lemma GhostOfFivePartKey(p: string, c: string, a: string, s: string, t: string)
    requires Plain(p) && Plain(c) && Plain(a) && Plain(s) && Plain(t)
    ensures var full := ToKey(CacheKey(p, Some(c), Some(a), Some(s + SEP + t), None));
            && FromKey(full) == CacheKey(p, Some(c), Some(a), Some(s), None)
            && ToKey(FromKey(full)) != full && !Restorable(full)
  {
    var five := [p, c, a, s, t];
    var full := ToKey(CacheKey(p, Some(c), Some(a), Some(s + SEP + t), None));
    assert Parts(CacheKey(p, Some(c), Some(a), Some(s + SEP + t), None)) == [p, c, a, s + SEP + t];
    JoinFour(p, c, a, s + SEP + t);
    JoinFour(c, a, s, t);
    JoinCons(p, [c, a, s, t], SEP);
    assert [p] + [c, a, s, t] == five;
    assert full == Join(five, SEP);
    SplitOfCleanJoin(five, SEP);
    assert FromKey(full) == CacheKey(p, Some(c), Some(a), Some(s), None);
    ResolvedKeyIsExact(full);
    assert !Restorable(full);
  }

  lemma JoinFour(p: string, c: string, a: string, s: string)
    ensures Join([p, c, a, s], SEP) == p + SEP + (c + SEP + (a + SEP + s))
  {
    JoinCons(a, [s], SEP);
    JoinCons(c, [a, s], SEP);
    JoinCons(p, [c, a, s], SEP);
    assert [a] + [s] == [a, s] && [c] + [a, s] == [c, a, s] && [p] + [c, a, s] == [p, c, a, s];
  }

  // ------------------------------------------------- the other operations

  /** An entry whose key the codec can restore, as every entry the client stores. */
  ghost predicate Storable(ix: Index, e: CacheEntry) {
    Restorable(EntryKey(e)) && !IsManifestKey(ix, EntryKey(e))
  }

  lemma SetKeepsInv(ix: Index, st: Store, e: CacheEntry, now: int)
    requires Inv(ix, st) && Storable(ix, e)
    ensures Inv(ix, PutNoted(ix, st, EntryKey(e), Stamped(e, now)))
  {
    NotedPutKeepsInv(ix, st, EntryKey(e), Stamped(e, now));
  }

  lemma SetIdTokenKeepsInv(ix: Index, st: Store, c: string, e: IdTokenEntry)
    requires Inv(ix, st) && !IsManifestKey(ix, IdTokenKey(c))
    ensures Inv(ix, SetIdToken(ix, st, c, e))
  {
    NotedPutKeepsInv(ix, st, IdTokenKey(c), IdToken(e));
  }

  lemma UpdateEntryKeepsInv(ix: Index, st: Store, previous: string, next: string, c: string, useMrrt: bool)
    requires Inv(ix, st)
    ensures Inv(ix, UpdateEntry(ix, st, previous, next, c, useMrrt))
    ensures KeyList(ix, UpdateEntry(ix, st, previous, next, c, useMrrt)) == KeyList(ix, st)
  {
  }

  lemma StripKeepsInv(ix: Index, st: Store, token: string)
    requires Inv(ix, st)
    ensures Inv(ix, StripRefreshToken(ix, st, token))
    ensures KeyList(ix, StripRefreshToken(ix, st, token)) == KeyList(ix, st)
  {
  }

  /** Which entries a clear leaves: none that concern the id, and the manifest never. */
  lemma ClearEffect(ix: Index, st: Store, c: Option<string>)
    requires Inv(ix, st)
    ensures var st' := Clear(ix, st, c);
            && Valid(ix, st')
            && (forall key :: key in st'.entries <==> key in st.entries && !IsManifestKey(ix, key) && !Concerns(key, c))
            && (forall key :: key in st'.entries ==> st'.entries[key] == st.entries[key])
  {
    if KeyList(ix, st).Some? {
      var keys := Concerning(KeyList(ix, st).value, c);
      DeleteAllEffect(st, keys);
      DeleteKeepsOrder(DeleteAll(st, keys), ManifestKey(if ix.ManifestOf? then ix.clientId else ""));
    }
  }

  /**
   * After a clear the index still sees everything stored exactly when nothing it would forget is
   * left: always without a manifest, and with one when every entry concerns the cleared id.
   */
  lemma ClearKeepsInvExactly(ix: Index, st: Store, c: Option<string>)
    requires Inv(ix, st)
    ensures Inv(ix, Clear(ix, st, c))
      <==> (ix.AllKeys? || forall key :: key in st.entries && !IsManifestKey(ix, key) ==> Concerns(key, c))
  {
    ClearEffect(ix, st, c);
    ClearedInv(ix, st, c, Clear(ix, st, c));
  }

  lemma ClearedInv(ix: Index, st: Store, c: Option<string>, st': Store)
    requires Inv(ix, st) && Valid(ix, st')
    requires forall key :: key in st'.entries <==> key in st.entries && !IsManifestKey(ix, key) && !Concerns(key, c)
    requires forall key :: key in st'.entries ==> st'.entries[key] == st.entries[key]
    ensures Inv(ix, st')
      <==> (ix.AllKeys? || forall key :: key in st.entries && !IsManifestKey(ix, key) ==> Concerns(key, c))
  {
    if ix.ManifestOf? {
      assert KeyList(ix, st').None?;
    }
  }
}
