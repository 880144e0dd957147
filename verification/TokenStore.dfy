/**
 * The token cache as a value: what every `CacheManager` operation makes of the stored entries.
 * `CacheManagers` proves the class that updates live objects against these functions.
 */
module TokenStore {
  import opened Prelude
  import opened Text
  import opened CacheKeys

  /** The `session_expiry` claim: the only claim that is checked after verification. */
  datatype Ceiling = NoCeiling | NotANumber | Seconds(at: int)

  datatype Claims = Claims(sub: string, iat: Option<int>, sessionExpiry: Ceiling)

  datatype IdTokenEntry = IdTokenEntry(idToken: string, claims: Claims)

  datatype Details = Details(clientId: string, tokenType: Option<string>, expiresIn: int,
    oauthTokenScope: Option<string>)

  /** A stored token response; after expiry only refresh token, audience and scope are left. */
  datatype Body = Body(
    accessToken: Option<string>,
    refreshToken: Option<string>,
    audience: Option<string>,
    scope: Option<string>,
    idToken: Option<IdTokenEntry>,
    details: Option<Details>)

  /** What `set` is given: a token response with the client, audience and scope it was requested for. */
  datatype CacheEntry = CacheEntry(
    clientId: string,
    audience: string,
    scope: string,
    accessToken: string,
    refreshToken: Option<string>,
    tokenType: Option<string>,
    expiresIn: int,
    oauthTokenScope: Option<string>,
    idToken: Option<IdTokenEntry>)

  datatype Value =
    | Token(body: Body, expiresAt: int)
    | IdToken(entry: IdTokenEntry)
    | Manifest(keys: seq<string>)

  /** Entries with their insertion order, which is the order `Object.keys` reports. */
  datatype Store = Store(entries: map<string, Value>, order: seq<string>)

  /** How a cache manager learns its keys: from the cache itself, or from the manifest entry of a client. */
  datatype Index = AllKeys | ManifestOf(clientId: string)

  const EMPTY := Store(map[], [])

  // ---------------------------------------------------------------- the cache

  function Put(st: Store, key: string, v: Value): Store {
    Store(st.entries[key := v], AddKey(st.order, key))
  }

  function Delete(st: Store, key: string): Store {
    Store(st.entries - {key}, RemoveKey(st.order, key))
  }

  function DeleteAll(st: Store, keys: seq<string>): Store
    decreases |keys|
  {
    if keys == [] then st else DeleteAll(Delete(st, keys[0]), keys[1..])
  }

  // ------------------------------------------------------------- the manifest

  function ManifestKeys(st: Store, clientId: string): Option<seq<string>> {
    var mk := ManifestKey(clientId);
    if mk in st.entries && st.entries[mk].Manifest? then Some(st.entries[mk].keys) else None
  }

  function ManifestAdd(st: Store, clientId: string, key: string): Store {
    var known := ManifestKeys(st, clientId);
    var keys := if known.Some? then known.value else [];
    Put(st, ManifestKey(clientId), Manifest(AddKey(Dedupe(keys), key)))
  }

  function ManifestRemove(st: Store, clientId: string, key: string): Store {
    var mk := ManifestKey(clientId);
    if mk !in st.entries then st
    else
      var known := ManifestKeys(st, clientId);
      var keys := RemoveKey(Dedupe(if known.Some? then known.value else []), key);
      if keys != [] then Put(st, mk, Manifest(keys)) else Delete(st, mk)
  }

  function NoteKey(ix: Index, st: Store, key: string): Store {
    if ix.AllKeys? then st else ManifestAdd(st, ix.clientId, key)
  }

  function ForgetKey(ix: Index, st: Store, key: string): Store {
    if ix.AllKeys? then st else ManifestRemove(st, ix.clientId, key)
  }

  function KeyList(ix: Index, st: Store): Option<seq<string>> {
    if ix.AllKeys? then Some(st.order) else ManifestKeys(st, ix.clientId)
  }

  // ------------------------------------------------------------------- lookup

  /** `scope?.split(' ') || []`. */
  function ScopeWords(scope: Option<string>): seq<string> {
    if scope.Some? then Split(scope.value, " ") else []
  }

  /** The stored key serves a request for `k`: same client and audience, at least the requested scopes. */
  predicate Serves(key: string, k: CacheKey) {
    var stored := FromKey(key);
    && stored.prefix == CACHE_KEY_PREFIX
    && stored.clientId == k.clientId
    && stored.audience == k.audience
    && Truthy(stored.scope)
    && forall s :: s in ScopeWords(k.scope) ==> s in ScopeWords(stored.scope)
  }

  function FirstServing(keys: seq<string>, k: CacheKey): Option<string> {
    if keys == [] then None
    else if Serves(keys[0], k) then Some(keys[0])
    else FirstServing(keys[1..], k)
  }

  function Stripped(b: Body): Body {
    Body(None, b.refreshToken, b.audience, b.scope, None, None)
  }

  predicate LendsRefreshToken(st: Store, key: string, k: CacheKey) {
    && FromKey(key).prefix == CACHE_KEY_PREFIX
    && FromKey(key).clientId == k.clientId
    && key in st.entries && st.entries[key].Token?
    && Truthy(st.entries[key].body.refreshToken)
  }

  function FirstRefreshToken(st: Store, keys: seq<string>, k: CacheKey): Option<Body> {
    if keys == [] then None
    else if LendsRefreshToken(st, keys[0], k) then Some(Stripped(st.entries[keys[0]].body))
    else FirstRefreshToken(st, keys[1..], k)
  }

  predicate Expired(v: Value, adjustment: int, now: int)
    requires v.Token?
  {
    v.expiresAt - adjustment < FloorSeconds(now)
  }

  /** What happens to the entry a lookup found, `key` being where the writes go. */
  function Serve(ix: Index, st: Store, v: Value, key: string, adjustment: int, now: int): (Option<Body>, Store) {
    if !v.Token? then (None, st)
    else if !Expired(v, adjustment, now) then (Some(v.body), st)
    else if Truthy(v.body.refreshToken) then
      (Some(Stripped(v.body)), Put(st, key, Token(Stripped(v.body), v.expiresAt)))
    else (None, ForgetKey(ix, Delete(st, key), key))
  }

  /** A lookup that found nothing under its own key: scope matching, then any refresh token. */
  function Search(ix: Index, st: Store, keys: seq<string>, k: CacheKey, adjustment: int, lend: bool, now: int)
    : (Option<Body>, Store)
  {
    var found := FirstServing(keys, k);
    if found.Some? && found.value in st.entries then
      Serve(ix, st, st.entries[found.value], ToKey(FromKey(found.value)), adjustment, now)
    else if lend then (FirstRefreshToken(st, keys, k), st)
    else (None, st)
  }

  function Get(ix: Index, st: Store, k: CacheKey, adjustment: int, useMrrt: bool, cacheOnly: bool, now: int)
    : (Option<Body>, Store)
  {
    if ToKey(k) in st.entries then Serve(ix, st, st.entries[ToKey(k)], ToKey(k), adjustment, now)
    else
      var keys := KeyList(ix, st);
      if keys.None? then (None, st) else Search(ix, st, keys.value, k, adjustment, useMrrt && !cacheOnly, now)
  }

  // ------------------------------------------------------------------- writes

  function EntryKey(e: CacheEntry): string {
    ToKey(TokenKey(e.clientId, e.audience, e.scope))
  }

  /** Stores a value and notes its key. */
  function PutNoted(ix: Index, st: Store, key: string, v: Value): Store {
    NoteKey(ix, Put(st, key, v), key)
  }

  function EntryBody(e: CacheEntry): Body {
    Body(Some(e.accessToken), e.refreshToken, Some(e.audience), Some(e.scope), e.idToken,
         Some(Details(e.clientId, e.tokenType, e.expiresIn, e.oauthTokenScope)))
  }

  /** The value stored for an entry: `set(e)` is `PutNoted(ix, st, EntryKey(e), Stamped(e, now))`. */
  function Stamped(e: CacheEntry, now: int): Value {
    Token(EntryBody(e), FloorSeconds(now) + e.expiresIn)
  }

  function SetIdToken(ix: Index, st: Store, clientId: string, e: IdTokenEntry): Store {
    PutNoted(ix, st, IdTokenKey(clientId), IdToken(e))
  }

  function Remove(st: Store, clientId: string, audience: Option<string>, scope: Option<string>): Store {
    Delete(st, ToKey(CacheKey(CACHE_KEY_PREFIX, Some(clientId), audience, scope, None)))
  }

  function GetIdToken(ix: Index, st: Store, k: CacheKey, now: int): (Option<IdTokenEntry>, Store) {
    var key := IdTokenKey(OrElse(k.clientId, ""));
    if key in st.entries then ((if st.entries[key].IdToken? then Some(st.entries[key].entry) else None), st)
    else if Truthy(k.scope) && Truthy(k.audience) then
      var (body, st') := Get(ix, st, k, 0, false, false, now);
      ((if body.Some? then body.value.idToken else None), st')
    else (None, st)
  }

  // --------------------------------------------------------- refresh tokens

  function Rotated(v: Value, previous: string, next: string, useMrrt: bool): Value {
    if v.Token? && Truthy(v.body.refreshToken) && (useMrrt || v.body.refreshToken == Some(previous))
    then v.(body := v.body.(refreshToken := Some(next))) else v
  }

  function UpdateEntry(ix: Index, st: Store, previous: string, next: string, clientId: string, useMrrt: bool): Store {
    var keys := KeyList(ix, st);
    if keys.None? then st
    else st.(entries := map key | key in st.entries ::
      if key in keys.value && FromKey(key).clientId == Some(clientId)
      then Rotated(st.entries[key], previous, next, useMrrt) else st.entries[key])
  }

  function WithoutToken(v: Value, token: string): Value {
    if v.Token? && v.body.refreshToken == Some(token) then v.(body := v.body.(refreshToken := None)) else v
  }

  /** The rotation of a single entry. */
  function RotateAt(st: Store, key: string, previous: string, next: string, useMrrt: bool): Store {
    if key in st.entries
    then Store(st.entries[key := Rotated(st.entries[key], previous, next, useMrrt)], st.order)
    else st
  }

  /** The strip of a single entry. */
  function StripAt(st: Store, key: string, token: string): Store {
    if key in st.entries then Store(st.entries[key := WithoutToken(st.entries[key], token)], st.order) else st
  }

  function StripRefreshToken(ix: Index, st: Store, token: string): Store {
    var keys := KeyList(ix, st);
    if keys.None? then st
    else st.(entries := map key | key in st.entries ::
      if key in keys.value then WithoutToken(st.entries[key], token) else st.entries[key])
  }

  // The loops over the keys, one entry at a time, and what they add up to.

  function RotateKeys(
      st: Store, keys: seq<string>, previous: string, next: string, clientId: string, useMrrt: bool): Store {
    if keys == [] then st
    else
      var last := keys[|keys| - 1];
      var before := RotateKeys(st, keys[..|keys| - 1], previous, next, clientId, useMrrt);
      if FromKey(last).clientId == Some(clientId) then RotateAt(before, last, previous, next, useMrrt) else before
  }

  lemma RotateOneMore(
      st: Store, keys: seq<string>, i: nat, previous: string, next: string, clientId: string, useMrrt: bool)
    requires i < |keys|
    ensures RotateKeys(st, keys[..i + 1], previous, next, clientId, useMrrt)
         == (var before := RotateKeys(st, keys[..i], previous, next, clientId, useMrrt);
             if FromKey(keys[i]).clientId == Some(clientId) then RotateAt(before, keys[i], previous, next, useMrrt)
             else before)
  {
    assert keys[..i + 1][..i] == keys[..i];
  }

  lemma {:induction false} RotateKeysPointwise(
      st: Store, keys: seq<string>, previous: string, next: string, clientId: string, useMrrt: bool)
    ensures var st' := RotateKeys(st, keys, previous, next, clientId, useMrrt);
            && st'.order == st.order && st'.entries.Keys == st.entries.Keys
            && forall key :: key in st.entries ==>
                 (st'.entries[key] == if key in keys && FromKey(key).clientId == Some(clientId)
                                      then Rotated(st.entries[key], previous, next, useMrrt) else st.entries[key])
  {
    if keys != [] {
      RotateKeysPointwise(st, keys[..|keys| - 1], previous, next, clientId, useMrrt);
      assert keys == keys[..|keys| - 1] + [keys[|keys| - 1]];
    }
  }

  lemma RotateKeysIsUpdate(
      ix: Index, st: Store, keys: seq<string>, previous: string, next: string, clientId: string, useMrrt: bool)
    requires KeyList(ix, st) == Some(keys)
    ensures RotateKeys(st, keys, previous, next, clientId, useMrrt)
      == UpdateEntry(ix, st, previous, next, clientId, useMrrt)
  {
    RotateKeysPointwise(st, keys, previous, next, clientId, useMrrt);
    assert RotateKeys(st, keys, previous, next, clientId, useMrrt).entries
        == UpdateEntry(ix, st, previous, next, clientId, useMrrt).entries;
  }

  function StripKeys(st: Store, keys: seq<string>, token: string): Store {
    if keys == [] then st else StripAt(StripKeys(st, keys[..|keys| - 1], token), keys[|keys| - 1], token)
  }

  lemma StripOneMore(st: Store, keys: seq<string>, i: nat, token: string)
    requires i < |keys|
    ensures StripKeys(st, keys[..i + 1], token) == StripAt(StripKeys(st, keys[..i], token), keys[i], token)
  {
    assert keys[..i + 1][..i] == keys[..i];
  }

  lemma {:induction false} StripKeysPointwise(st: Store, keys: seq<string>, token: string)
    ensures var st' := StripKeys(st, keys, token);
            && st'.order == st.order && st'.entries.Keys == st.entries.Keys
            && forall key :: key in st.entries ==>
                 (st'.entries[key] == if key in keys then WithoutToken(st.entries[key], token) else st.entries[key])
  {
    if keys != [] {
      StripKeysPointwise(st, keys[..|keys| - 1], token);
      assert keys == keys[..|keys| - 1] + [keys[|keys| - 1]];
    }
  }

  lemma StripKeysIsStrip(ix: Index, st: Store, keys: seq<string>, token: string)
    requires KeyList(ix, st) == Some(keys)
    ensures StripKeys(st, keys, token) == StripRefreshToken(ix, st, token)
  {
    StripKeysPointwise(st, keys, token);
    assert StripKeys(st, keys, token).entries == StripRefreshToken(ix, st, token).entries;
  }

  /** The key belongs to this client and audience. */
  predicate ForAudience(key: string, audience: string, clientId: string) {
    var k := FromKey(key);
    k.prefix == CACHE_KEY_PREFIX && k.clientId == Some(clientId) && k.audience == Some(audience)
  }

  function HeldTokens(st: Store, keys: seq<string>, audience: string, clientId: string): seq<string> {
    if keys == [] then []
    else
      var key := keys[0];
      (if ForAudience(key, audience, clientId) && key in st.entries && st.entries[key].Token?
          && Truthy(st.entries[key].body.refreshToken)
       then [st.entries[key].body.refreshToken.value] else [])
      + HeldTokens(st, keys[1..], audience, clientId)
  }

  lemma {:induction false} HeldTokensOfLonger(
      st: Store, keys: seq<string>, key: string, audience: string, clientId: string)
    ensures HeldTokens(st, keys + [key], audience, clientId)
         == HeldTokens(st, keys, audience, clientId) + HeldTokens(st, [key], audience, clientId)
  {
    if keys == [] {
      assert [] + [key] == [key];
    } else {
      HeldTokensOfLonger(st, keys[1..], key, audience, clientId);
      assert (keys + [key])[1..] == keys[1..] + [key];
    }
  }

  lemma OneMoreKey(st: Store, keys: seq<string>, i: nat, audience: string, clientId: string, token: Option<string>)
    requires i < |keys|
    requires HeldTokens(st, [keys[i]], audience, clientId) == (if token.Some? then [token.value] else [])
    ensures var before := Dedupe(HeldTokens(st, keys[..i], audience, clientId));
            Dedupe(HeldTokens(st, keys[..i + 1], audience, clientId))
              == (if token.Some? then AddKey(before, token.value) else before)
  {
    var held := HeldTokens(st, keys[..i], audience, clientId);
    assert keys[..i + 1] == keys[..i] + [keys[i]];
    HeldTokensOfLonger(st, keys[..i], keys[i], audience, clientId);
    if token.Some? {
      DedupeOneMore(held, token.value);
    } else {
      assert held + [] == held;
    }
  }

  function RefreshTokensByAudience(ix: Index, st: Store, audience: string, clientId: string): seq<string> {
    var keys := KeyList(ix, st);
    if keys.None? then [] else Dedupe(HeldTokens(st, keys.value, audience, clientId))
  }

  // -------------------------------------------------------------------- clear

  predicate Concerns(key: string, clientId: Option<string>) {
    Truthy(clientId) ==> Includes(key, clientId.value)
  }

  function Concerning(keys: seq<string>, clientId: Option<string>): (r: seq<string>)
    ensures forall key :: key in r <==> key in keys && Concerns(key, clientId)
  {
    if keys == [] then []
    else (if Concerns(keys[0], clientId) then [keys[0]] else []) + Concerning(keys[1..], clientId)
  }

  function Clear(ix: Index, st: Store, clientId: Option<string>): Store {
    var keys := KeyList(ix, st);
    if keys.None? then st
    else
      var st' := DeleteAll(st, Concerning(keys.value, clientId));
      if ix.AllKeys? then st' else Delete(st', ManifestKey(ix.clientId))
  }

  // --------------------------------------------------------------- invariants

  /** The order lists every key once; the manifest entry, when there is one, is a non-empty key set. */
  ghost predicate Valid(ix: Index, st: Store) {
    && Distinct(st.order)
    && (forall key :: key in st.order <==> key in st.entries)
    && (ix.ManifestOf? ==>
      var mk := ManifestKey(ix.clientId);
      mk in st.entries ==> st.entries[mk].Manifest? && ManifestShape(st.entries[mk].keys, mk))
  }

  ghost predicate ManifestShape(keys: seq<string>, mk: string) {
    keys != [] && Distinct(keys) && mk !in keys
  }

  /** The entry that holds the manifest itself is not one of the indexed entries. */
  predicate IsManifestKey(ix: Index, key: string) {
    ix.ManifestOf? && key == ManifestKey(ix.clientId)
  }

  /** No stored entry is invisible to the index. */
  ghost predicate Listed(ix: Index, st: Store) {
    forall key :: key in st.entries && !IsManifestKey(ix, key) ==>
      KeyList(ix, st).Some? && key in KeyList(ix, st).value
  }

  /** Every token key can be rebuilt from its parts, so an expired entry is stripped in place. */
  ghost predicate AllRestorable(st: Store) {
    forall key :: key in st.entries && st.entries[key].Token? ==> Restorable(key)
  }

  ghost predicate Inv(ix: Index, st: Store) {
    Valid(ix, st) && Listed(ix, st) && AllRestorable(st)
  }
}
