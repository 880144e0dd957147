/**
 * The cache classes over live objects. `InMemoryCache` hands out the stored bodies themselves, so a
 * body that a caller got earlier changes when a rotation writes into it, and must not change when
 * an expired entry is stripped. Every method is proved against `TokenStore`.
 */
module CacheManagers {
  import opened Prelude
  import opened CacheKeys
  import S = TokenStore

  /** A stored token response. Only the refresh token is ever assigned after creation. */
  class TokenBody {
    var refreshToken: Option<string>
    const accessToken: Option<string>
    const audience: Option<string>
    const scope: Option<string>
    const idToken: Option<S.IdTokenEntry>
    const details: Option<S.Details>

    constructor (b: S.Body)
      ensures Value() == b
    {
      refreshToken := b.refreshToken;
      accessToken := b.accessToken;
      audience := b.audience;
      scope := b.scope;
      idToken := b.idToken;
      details := b.details;
    }

    ghost function Value(): S.Body
      reads this
    {
      S.Body(accessToken, refreshToken, audience, scope, idToken, details)
    }
  }

  datatype Slot =
    | TokenSlot(body: TokenBody, expiresAt: int)
    | IdTokenSlot(entry: S.IdTokenEntry)
    | ManifestSlot(keys: seq<string>)

  ghost function BodyOf(slot: Slot): set<TokenBody> {
    if slot.TokenSlot? then {slot.body} else {}
  }

  ghost function ValueOf(slot: Slot): S.Value
    reads BodyOf(slot)
  {
    match slot
    case TokenSlot(body, expiresAt) => S.Token(body.Value(), expiresAt)
    case IdTokenSlot(entry) => S.IdToken(entry)
    case ManifestSlot(keys) => S.Manifest(keys)
  }

  /** The closure variable `cache` of the in-memory cache, with the order its properties were added in. */
  class InMemoryCache {
    var record: map<string, Slot>
    var order: seq<string>

    constructor ()
      ensures Contents() == S.EMPTY && Valid() && Bodies() == {}
    {
      record, order := map[], [];
    }

    ghost function Bodies(): set<TokenBody>
      reads this
    {
      set key | key in record && record[key].TokenSlot? :: record[key].body
    }

    ghost predicate Valid()
      reads this
    {
      forall key :: key in order <==> key in record
    }

    /** No two entries share a body, so writing into one leaves the others alone. */
    ghost predicate Unshared()
      reads this
    {
      forall k, k' :: k in record && k' in record && k != k' && record[k].TokenSlot? && record[k'].TokenSlot? ==>
        record[k].body != record[k'].body
    }

    ghost function Contents(): S.Store
      reads this, Bodies()
    {
      S.Store(map key | key in record :: ValueOf(record[key]), order)
    }

    method Set(key: string, slot: Slot)
      requires Valid()
      modifies this
      ensures Valid() && record == old(record)[key := slot]
      ensures Contents() == S.Put(old(Contents()), key, ValueOf(slot))
      ensures Bodies() <= old(Bodies()) + BodyOf(slot)
    {
      record, order := record[key := slot], AddKey(order, key);
      assert Contents().entries == old(Contents()).entries[key := ValueOf(slot)];
    }

    method Remove(key: string)
      requires Valid()
      modifies this
      ensures Valid() && record == old(record) - {key}
      ensures Contents() == S.Delete(old(Contents()), key)
      ensures Bodies() <= old(Bodies())
    {
      record, order := record - {key}, RemoveKey(order, key);
      assert Contents().entries == old(Contents()).entries - {key};
    }
  }

  /** The key set that a cache without `allKeys` keeps beside its entries, in one entry of the same cache. */
  class CacheKeyManifest {
    const cache: InMemoryCache
    const clientId: string

    constructor (cache: InMemoryCache, clientId: string)
      ensures this.cache == cache && this.clientId == clientId
    {
      this.cache, this.clientId := cache, clientId;
    }

    method Get() returns (keys: Option<seq<string>>)
      ensures keys == S.ManifestKeys(cache.Contents(), clientId)
    {
      var mk := ManifestKey(clientId);
      if mk in cache.record && cache.record[mk].ManifestSlot? {
        keys := Some(cache.record[mk].keys);
      } else {
        keys := None;
      }
    }

    method Add(key: string)
      requires cache.Valid()
      modifies cache
      ensures cache.Valid() && cache.Bodies() <= old(cache.Bodies())
      ensures old(cache.Unshared()) ==> cache.Unshared()
      ensures cache.Contents() == S.ManifestAdd(old(cache.Contents()), clientId, key)
    {
      var known := Get();
      var keys := AddKey(Dedupe(if known.Some? then known.value else []), key);
      cache.Set(ManifestKey(clientId), ManifestSlot(keys));
    }

    method Remove(key: string)
      requires cache.Valid()
      modifies cache
      ensures cache.Valid() && cache.Bodies() <= old(cache.Bodies())
      ensures old(cache.Unshared()) ==> cache.Unshared()
      ensures cache.Contents() == S.ManifestRemove(old(cache.Contents()), clientId, key)
    {
      var mk := ManifestKey(clientId);
      if mk in cache.record {
        var known := Get();
        var keys := RemoveKey(Dedupe(if known.Some? then known.value else []), key);
        if |keys| > 0 {
          cache.Set(mk, ManifestSlot(keys));
        } else {
          cache.Remove(mk);
        }
      }
    }

    method Clear()
      requires cache.Valid()
      modifies cache
      ensures cache.Valid() && cache.Bodies() <= old(cache.Bodies())
      ensures old(cache.Unshared()) ==> cache.Unshared()
      ensures cache.Contents() == S.Delete(old(cache.Contents()), ManifestKey(clientId))
    {
      cache.Remove(ManifestKey(clientId));
    }
  }

  class CacheManager {
    const cache: InMemoryCache
    const keyManifest: CacheKeyManifest?

    constructor (cache: InMemoryCache, keyManifest: CacheKeyManifest?)
      requires keyManifest != null ==> keyManifest.cache == cache
      requires cache.Valid() && cache.Unshared()
      ensures this.cache == cache && this.keyManifest == keyManifest && Valid()
    {
      this.cache, this.keyManifest := cache, keyManifest;
    }

    ghost predicate Valid()
      reads cache
    {
      (keyManifest != null ==> keyManifest.cache == cache) && cache.Valid() && cache.Unshared()
    }

    /** Keys come from the manifest when there is one, else from the cache. */
    ghost function Index(): S.Index {
      if keyManifest == null then S.AllKeys else S.ManifestOf(keyManifest.clientId)
    }

    ghost function Contents(): S.Store
      reads cache, cache.Bodies()
    {
      cache.Contents()
    }

    method GetCacheKeys() returns (keys: Option<seq<string>>)
      requires Valid()
      ensures keys == S.KeyList(Index(), Contents())
    {
      if keyManifest != null {
        keys := keyManifest.Get();
      } else {
        keys := Some(cache.order);
      }
    }

    method NoteKey(key: string)
      requires Valid()
      modifies cache
      ensures Valid() && cache.Bodies() <= old(cache.Bodies())
      ensures Contents() == S.NoteKey(Index(), old(Contents()), key)
    {
      if keyManifest != null {
        keyManifest.Add(key);
      }
    }

    /** `cache.set` followed by `keyManifest?.add`. */
    method PutNoted(key: string, slot: Slot)
      requires Valid() && cache.Bodies() !! BodyOf(slot)
      modifies cache
      ensures Valid() && cache.Bodies() <= old(cache.Bodies()) + BodyOf(slot)
      ensures Contents() == S.PutNoted(Index(), old(Contents()), key, ValueOf(slot))
    {
      cache.Set(key, slot);
      NoteKey(key);
    }

    method SetIdToken(clientId: string, entry: S.IdTokenEntry)
      requires Valid()
      modifies cache
      ensures Valid() && cache.Bodies() <= old(cache.Bodies())
      ensures Contents() == S.SetIdToken(Index(), old(Contents()), clientId, entry)
    {
      PutNoted(IdTokenKey(clientId), IdTokenSlot(entry));
    }

    /** Stores a token response under the key of its client, audience and scope. */
    method Set(entry: S.CacheEntry, now: int)
      requires Valid()
      modifies cache
      ensures Valid() && fresh(cache.Bodies() - old(cache.Bodies()))
      ensures Contents() == S.PutNoted(Index(), old(Contents()), S.EntryKey(entry), S.Stamped(entry, now))
    {
      var body := new TokenBody(S.EntryBody(entry));
      PutNoted(S.EntryKey(entry), TokenSlot(body, FloorSeconds(now) + entry.expiresIn));
    }

    method Remove(clientId: string, audience: Option<string>, scope: Option<string>)
      requires Valid()
      modifies cache
      ensures Valid() && cache.Bodies() <= old(cache.Bodies())
      ensures Contents() == S.Remove(old(Contents()), clientId, audience, scope)
    {
      cache.Remove(ToKey(CacheKey(CACHE_KEY_PREFIX, Some(clientId), audience, scope, None)));
    }

    method ForgetKey(key: string)
      requires Valid()
      modifies cache
      ensures Valid() && cache.Bodies() <= old(cache.Bodies())
      ensures Contents() == S.ForgetKey(Index(), old(Contents()), key)
    {
      if keyManifest != null {
        keyManifest.Remove(key);
      }
    }

    /**
     * Strips an expired entry. A new object takes its place: the body that was stored, which callers
     * may hold, is not written to. The result is a second new object.
     */
    method ModifiedCachedEntry(body: TokenBody, expiresAt: int, key: string) returns (r: TokenBody)
      requires Valid()
      modifies cache
      ensures Valid() && fresh(cache.Bodies() - old(cache.Bodies()))
      ensures fresh(r) && r !in cache.Bodies() && r.Value() == S.Stripped(body.Value())
      ensures Contents() == S.Put(old(Contents()), key, S.Token(S.Stripped(body.Value()), expiresAt))
    {
      var stripped := new TokenBody(S.Body(None, body.refreshToken, body.audience, body.scope, None, None));
      cache.Set(key, TokenSlot(stripped, expiresAt));
      r := new TokenBody(S.Body(None, body.refreshToken, body.audience, body.scope, None, None));
    }

    /** The expiry decision for the entry a lookup found; writes go to `key`. */
    method Serve(slot: Slot, key: string, adjustment: int, now: int) returns (r: TokenBody?)
      requires Valid() && (slot.TokenSlot? ==> slot.body in cache.Bodies())
      modifies cache
      ensures Valid() && fresh(cache.Bodies() - old(cache.Bodies()))
      ensures var (result, st') := S.Serve(Index(), old(Contents()), old(ValueOf(slot)), key, adjustment, now);
              && Contents() == st'
              && (r == null <==> result.None?)
              && (r != null ==> r.Value() == result.value && (r in old(cache.Bodies()) || fresh(r)))
    {
      if !slot.TokenSlot? {
        return null;
      }
      if slot.expiresAt - adjustment < FloorSeconds(now) {
        if Truthy(slot.body.refreshToken) {
          r := ModifiedCachedEntry(slot.body, slot.expiresAt, key);
          return;
        }
        cache.Remove(key);
        ForgetKey(key);
        return null;
      }
      return slot.body;
    }

    /** The first listed entry of the client that holds a refresh token, as a new object. */
    method GetEntryWithRefreshToken(k: CacheKey, keys: seq<string>) returns (r: TokenBody?)
      requires Valid()
      ensures var result := S.FirstRefreshToken(Contents(), keys, k);
              (r == null <==> result.None?) && (r != null ==> fresh(r) && r.Value() == result.value)
    {
      ghost var st := Contents();
      ghost var result := S.FirstRefreshToken(st, keys, k);
      for i := 0 to |keys|
        invariant S.FirstRefreshToken(st, keys[i..], k) == result
      {
        var stored := FromKey(keys[i]);
        assert keys[i..][0] == keys[i] && keys[i..][1..] == keys[i + 1..];
        if stored.prefix == CACHE_KEY_PREFIX && stored.clientId == k.clientId && keys[i] in cache.record {
          var slot := cache.record[keys[i]];
          assert st.entries[keys[i]] == ValueOf(slot);
          if slot.TokenSlot? && Truthy(slot.body.refreshToken) {
            r := new TokenBody(S.Body(None, slot.body.refreshToken, slot.body.audience, slot.body.scope, None, None));
            assert Contents() == st;
            return;
          }
        }
      }
      assert keys[|keys|..] == [] && Contents() == st;
      return null;
    }

    /** Scope matching over the listed keys, then, when allowed, any refresh token of the client. */
    method Search(keys: seq<string>, k: CacheKey, adjustment: int, lend: bool, now: int) returns (r: TokenBody?)
      requires Valid()
      modifies cache
      ensures Valid() && fresh(cache.Bodies() - old(cache.Bodies()))
      ensures var (result, st') := S.Search(Index(), old(Contents()), keys, k, adjustment, lend, now);
              && Contents() == st'
              && (r == null <==> result.None?)
              && (r != null ==> r.Value() == result.value && (r in old(cache.Bodies()) || fresh(r)))
    {
      var matched := S.FirstServing(keys, k);
      if matched.Some? && matched.value in cache.record {
        r := Serve(cache.record[matched.value], ToKey(FromKey(matched.value)), adjustment, now);
      } else if lend {
        r := GetEntryWithRefreshToken(k, keys);
      } else {
        r := null;
      }
    }

    /**
     * Looks an entry up. Only the cache object is modified: no body that a caller holds changes, and
     * the result is either such a live body or a new object.
     */
    method Get(k: CacheKey, adjustment: int, useMrrt: bool, cacheOnly: bool, now: int) returns (r: TokenBody?)
      requires Valid()
      modifies cache
      ensures Valid() && fresh(cache.Bodies() - old(cache.Bodies()))
      ensures var (result, st') := S.Get(Index(), old(Contents()), k, adjustment, useMrrt, cacheOnly, now);
              && Contents() == st'
              && (r == null <==> result.None?)
              && (r != null ==> r.Value() == result.value && (r in old(cache.Bodies()) || fresh(r)))
    {
      var lookup := ToKey(k);
      if lookup in cache.record {
        r := Serve(cache.record[lookup], lookup, adjustment, now);
        return;
      }
      var keys := GetCacheKeys();
      if keys.None? {
        return null;
      }
      r := Search(keys.value, k, adjustment, useMrrt && !cacheOnly, now);
    }

    /** The id token inside a matching token entry, as older caches stored it. */
    method GetIdTokenByScope(k: CacheKey, now: int) returns (r: Option<S.IdTokenEntry>)
      requires Valid()
      modifies cache
      ensures Valid() && fresh(cache.Bodies() - old(cache.Bodies()))
      ensures var (body, st') := S.Get(Index(), old(Contents()), k, 0, false, false, now);
              r == (if body.Some? then body.value.idToken else None) && Contents() == st'
    {
      ghost var found := S.Get(Index(), Contents(), k, 0, false, false, now);
      var entryByScope := Get(k, 0, false, false, now);
      assert entryByScope == null <==> found.0.None?;
      r := if entryByScope == null then None else entryByScope.idToken;
    }

    /** The id token of the client, or the one inside a matching token entry of an older cache. */
    method GetIdToken(k: CacheKey, now: int) returns (r: Option<S.IdTokenEntry>)
      requires Valid()
      modifies cache
      ensures Valid() && fresh(cache.Bodies() - old(cache.Bodies()))
      ensures var (result, st') := S.GetIdToken(Index(), old(Contents()), k, now); r == result && Contents() == st'
    {
      var key := IdTokenKey(OrElse(k.clientId, ""));
      if key in cache.record {
        assert Contents().entries[key] == ValueOf(cache.record[key]);
        return if cache.record[key].IdTokenSlot? then Some(cache.record[key].entry) else None;
      }
      if Truthy(k.scope) && Truthy(k.audience) {
        r := GetIdTokenByScope(k, now);
        return;
      }
      return None;
    }

    /** The refresh token held under a key of this audience and client, if any. */
    function HeldToken(key: string, audience: string, clientId: string): (token: Option<string>)
      requires Valid()
      reads cache, cache.Bodies()
      ensures S.HeldTokens(Contents(), [key], audience, clientId) == (if token.Some? then [token.value] else [])
    {
      if S.ForAudience(key, audience, clientId) && key in cache.record && cache.record[key].TokenSlot?
        && Truthy(cache.record[key].body.refreshToken)
      then cache.record[key].body.refreshToken else None
    }

    /** The distinct refresh tokens held for one audience, in the order they are found. */
    method GetRefreshTokensByAudience(audience: string, clientId: string) returns (tokens: seq<string>)
      requires Valid()
      ensures tokens == S.RefreshTokensByAudience(Index(), Contents(), audience, clientId)
    {
      var keys := GetCacheKeys();
      if keys.None? {
        return [];
      }
      var listed := keys.value;
      ghost var st := Contents();
      tokens := [];
      for i := 0 to |listed|
        invariant Contents() == st
        invariant tokens == Dedupe(S.HeldTokens(st, listed[..i], audience, clientId))
      {
        var token := HeldToken(listed[i], audience, clientId);
        S.OneMoreKey(st, listed, i, audience, clientId, token);
        if token.Some? {
          tokens := AddKey(tokens, token.value);
        }
      }
      assert listed[..|listed|] == listed;
      assert S.RefreshTokensByAudience(Index(), st, audience, clientId) == tokens;
    }

    /** Writes a rotated token into one entry, in place. */
    method RotateOne(key: string, previous: string, next: string, useMrrt: bool)
      requires Valid()
      modifies cache, cache.Bodies()
      ensures Valid() && cache.record == old(cache.record) && cache.Bodies() == old(cache.Bodies())
      ensures Contents() == S.RotateAt(old(Contents()), key, previous, next, useMrrt)
    {
      if key in cache.record && cache.record[key].TokenSlot? {
        var slot := cache.record[key];
        var rt := slot.body.refreshToken;
        if Truthy(rt) && (useMrrt || rt == Some(previous)) {
          slot.body.refreshToken := Some(next);
          cache.Set(key, slot);
        }
      }
      ghost var was := old(Contents());
      assert key in was.entries ==>
        Contents().entries == was.entries[key := S.Rotated(was.entries[key], previous, next, useMrrt)];
      assert key !in was.entries ==> Contents().entries == was.entries;
    }

    /** Writes the rotated token into every entry concerned, in place: live bodies follow the rotation. */
    method UpdateEntry(previous: string, next: string, clientId: string, useMrrt: bool)
      requires Valid()
      modifies cache, cache.Bodies()
      ensures Valid() && cache.record == old(cache.record) && cache.Bodies() == old(cache.Bodies())
      ensures Contents() == S.UpdateEntry(Index(), old(Contents()), previous, next, clientId, useMrrt)
    {
      var allKeys := GetCacheKeys();
      if allKeys.None? {
        return;
      }
      var keys := allKeys.value;
      ghost var start := Contents();
      for i := 0 to |keys|
        invariant Valid() && cache.record == old(cache.record) && cache.Bodies() == old(cache.Bodies())
        invariant Contents() == S.RotateKeys(start, keys[..i], previous, next, clientId, useMrrt)
      {
        S.RotateOneMore(start, keys, i, previous, next, clientId, useMrrt);
        if FromKey(keys[i]).clientId == Some(clientId) {
          RotateOne(keys[i], previous, next, useMrrt);
        }
      }
      assert keys[..|keys|] == keys;
      S.RotateKeysIsUpdate(Index(), start, keys, previous, next, clientId, useMrrt);
    }

    /** Deletes one refresh token from one entry, in place. */
    method StripOne(key: string, token: string)
      requires Valid()
      modifies cache, cache.Bodies()
      ensures Valid() && cache.record == old(cache.record) && cache.Bodies() == old(cache.Bodies())
      ensures Contents() == S.StripAt(old(Contents()), key, token)
    {
      if key in cache.record && cache.record[key].TokenSlot? && cache.record[key].body.refreshToken == Some(token) {
        var slot := cache.record[key];
        slot.body.refreshToken := None;
        cache.Set(key, slot);
      }
      ghost var was := old(Contents());
      assert key in was.entries ==> Contents().entries == was.entries[key := S.WithoutToken(was.entries[key], token)];
      assert key !in was.entries ==> Contents().entries == was.entries;
    }

    /** Deletes a revoked refresh token from every entry that shares it; access tokens stay. */
    method StripRefreshToken(token: string)
      requires Valid()
      modifies cache, cache.Bodies()
      ensures Valid() && cache.record == old(cache.record) && cache.Bodies() == old(cache.Bodies())
      ensures Contents() == S.StripRefreshToken(Index(), old(Contents()), token)
    {
      var allKeys := GetCacheKeys();
      if allKeys.None? {
        return;
      }
      var keys := allKeys.value;
      ghost var start := Contents();
      for i := 0 to |keys|
        invariant Valid() && cache.record == old(cache.record) && cache.Bodies() == old(cache.Bodies())
        invariant Contents() == S.StripKeys(start, keys[..i], token)
      {
        S.StripOneMore(start, keys, i, token);
        StripOne(keys[i], token);
      }
      assert keys[..|keys|] == keys;
      S.StripKeysIsStrip(Index(), start, keys, token);
    }

    /** Removes every listed entry that concerns the id, all of them without one, and the manifest. */
    method Clear(clientId: Option<string>)
      requires Valid()
      modifies cache
      ensures Valid() && cache.Bodies() <= old(cache.Bodies())
      ensures Contents() == S.Clear(Index(), old(Contents()), clientId)
    {
      var keys := GetCacheKeys();
      if keys.None? {
        return;
      }
      var doomed := S.Concerning(keys.value, clientId);
      for i := 0 to |doomed|
        invariant Valid() && cache.Bodies() <= old(cache.Bodies())
        invariant S.DeleteAll(Contents(), doomed[i..]) == S.DeleteAll(old(Contents()), doomed)
      {
        assert doomed[i..][0] == doomed[i] && doomed[i..][1..] == doomed[i + 1..];
        cache.Remove(doomed[i]);
      }
      if keyManifest != null {
        keyManifest.Clear();
      }
    }
  }
}
