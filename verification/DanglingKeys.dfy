/**
 * Inputs on which the cache does less or more than it should, starting from an empty one. `remove` leaves
 * its key in the manifest, and a lookup that resolves to it stops there; a scope with `::` doubles its
 * entry; a clear reaches other clients or leaves entries unlisted. `StoreInvariants` has the exact conditions.
 */
module DanglingKeys {
  import opened Prelude
  import opened Text
  import opened CacheKeys
  import opened TokenStore
  import opened StoreInvariants
  import opened IndexRefinement

  /** An entry of client `c` that can be saved and has not expired at once. */
  ghost predicate Savable(c: string, e: CacheEntry) {
    e.clientId == c && EntryKey(e) != ManifestKey(c) && e.expiresIn >= 0
  }

  /** Saves an entry, removes it, saves another one, and looks up what either of them would answer. */
  function SaveRemoveSave(first: CacheEntry, second: CacheEntry, k: CacheKey, now: int): seq<Op> {
    [DoSet(first, now), DoRemove(Some(first.audience), Some(first.scope)), DoSet(second, now),
     DoGet(k, 0, false, false, now)]
  }

  // ------------------------------------------------------------ what the steps leave

  /** The manifest lists `keys`, and besides it exactly `stored` is in the cache. */
  ghost predicate Shape(c: string, b: Store, keys: seq<string>, stored: map<string, Value>) {
    && ManifestKeys(b, c) == Some(keys)
    && forall key :: key != ManifestKey(c) ==>
         (key in b.entries <==> key in stored) && (key in stored ==> b.entries[key] == stored[key])
  }

  lemma FirstSave(c: string, key: string, v: Value)
    requires key != ManifestKey(c)
    ensures Shape(c, PutNoted(ManifestOf(c), EMPTY, key, v), [key], map[key := v])
  {
    assert AddKey(Dedupe([]), key) == [key];
  }

  lemma LaterSave(c: string, b: Store, listed: string, key: string, v: Value)
    requires Shape(c, b, [listed], map[]) && key != ManifestKey(c) && listed != key
    ensures Shape(c, PutNoted(ManifestOf(c), b, key, v), [listed, key], map[key := v])
  {
    DedupeOfDistinct([listed]);
    assert ManifestKeys(Put(b, key, v), c) == Some([listed]);
    assert AddKey([listed], key) == [listed, key];
  }

  lemma RemoveKeepsListed(c: string, b: Store, key: string, v: Value)
    requires Shape(c, b, [key], map[key := v]) && key != ManifestKey(c)
    ensures Shape(c, Delete(b, key), [key], map[])
  {
  }

  // ------------------------------------------------------------ the lookups

  lemma FoundAlone(a: Store, key: string, v: Value, k: CacheKey, now: int)
    requires a.order == [key] && key in a.entries && a.entries[key] == v && ToKey(k) !in a.entries
    requires v.Token? && !Expired(v, 0, now) && Serves(key, k)
    ensures Get(AllKeys, a, k, 0, false, false, now).0 == Some(v.body)
  {
    assert FirstServing([key], k) == Some(key);
  }

  lemma HiddenByFirst(c: string, b: Store, dangling: string, later: string, v: Value, k: CacheKey, now: int)
    requires Shape(c, b, [dangling, later], map[later := v]) && dangling != later && dangling != ManifestKey(c)
    requires Serves(dangling, k) && ToKey(k) != later && ToKey(k) != ManifestKey(c)
    ensures Get(ManifestOf(c), b, k, 0, false, false, now).0 == None
  {
    assert FirstServing([dangling, later], k) == Some(dangling);
  }

  // ------------------------------------------------------------ the runs

  lemma RunOfOne(ix: Index, c: string, st: Store, op: Op, rest: seq<Op>, r: Result, st1: Store)
    requires Step(ix, c, st, op) == (r, st1)
    ensures Run(ix, c, st, [op] + rest).0 == [r] + Run(ix, c, st1, rest).0
  {
    assert ([op] + rest)[1..] == rest;
  }

  /** With the results of the single steps given, the results of the run. */
  lemma RunOfFour(
      ix: Index, c: string, s0: Store, o0: Op, r0: Result, s1: Store, o1: Op, r1: Result, s2: Store,
      o2: Op, r2: Result, s3: Store, o3: Op, r3: Result, s4: Store)
    requires Step(ix, c, s0, o0) == (r0, s1) && Step(ix, c, s1, o1) == (r1, s2)
    requires Step(ix, c, s2, o2) == (r2, s3) && Step(ix, c, s3, o3) == (r3, s4)
    ensures Run(ix, c, s0, [o0, o1, o2, o3]).0 == [r0, r1, r2, r3]
  {
    RunOfTwo(ix, c, s2, o2, r2, s3, o3, r3, s4, []);
    RunOfTwo(ix, c, s0, o0, r0, s1, o1, r1, s2, [o2, o3] + []);
    TwoAndTwo(o0, o1, o2, o3);
    TwoAndTwo(r0, r1, r2, r3);
  }

  lemma TwoAndTwo<T>(a: T, b: T, c: T, d: T)
    ensures [a, b] + ([c, d] + []) == [a, b, c, d]
  {
  }

  lemma RunOfTwo(
      ix: Index, c: string, s0: Store, o0: Op, r0: Result, s1: Store, o1: Op, r1: Result, s2: Store, rest: seq<Op>)
    requires Step(ix, c, s0, o0) == (r0, s1) && Step(ix, c, s1, o1) == (r1, s2)
    ensures Run(ix, c, s0, [o0, o1] + rest).0 == [r0, r1] + Run(ix, c, s2, rest).0
  {
    RunOfOne(ix, c, s1, o1, rest, r1, s2);
    RunOfOne(ix, c, s0, o0, [o1] + rest, r0, s1);
    OneAndRest(o0, o1, rest);
    OneAndRest(r0, r1, Run(ix, c, s2, rest).0);
  }

  lemma OneAndRest<T>(a: T, b: T, rest: seq<T>)
    ensures [a] + ([b] + rest) == [a, b] + rest
  {
  }

  lemma StepSet(ix: Index, c: string, st: Store, e: CacheEntry, now: int, st': Store)
    requires st' == PutNoted(ix, st, EntryKey(e), Stamped(e, now))
    ensures Step(ix, c, st, DoSet(e, now)) == (Done, st')
  {
  }

  lemma StepRemove(ix: Index, c: string, st: Store, e: CacheEntry, st': Store)
    requires e.clientId == c && st' == Delete(st, EntryKey(e))
    ensures Step(ix, c, st, DoRemove(Some(e.audience), Some(e.scope))) == (Done, st')
  {
  }

  lemma StepGet(ix: Index, c: string, st: Store, k: CacheKey, now: int, found: Option<Body>, st': Store)
    requires Get(ix, st, k, 0, false, false, now) == (found, st')
    ensures Step(ix, c, st, DoGet(k, 0, false, false, now)) == (Found(found), st')
  {
  }

  /** The four stores of the run, and what its lookup finds. */
  lemma RunOfOps(
      ix: Index, c: string, first: CacheEntry, second: CacheEntry, k: CacheKey, now: int,
      s1: Store, s2: Store, s3: Store, found: Option<Body>)
    requires first.clientId == c
    requires s1 == PutNoted(ix, EMPTY, EntryKey(first), Stamped(first, now)) && s2 == Delete(s1, EntryKey(first))
    requires s3 == PutNoted(ix, s2, EntryKey(second), Stamped(second, now))
    requires found == Get(ix, s3, k, 0, false, false, now).0
    ensures Run(ix, c, EMPTY, SaveRemoveSave(first, second, k, now)).0 == [Done, Done, Done, Found(found)]
  {
    var s4 := Get(ix, s3, k, 0, false, false, now).1;
    StepSet(ix, c, EMPTY, first, now, s1);
    StepRemove(ix, c, s1, first, s2);
    StepSet(ix, c, s2, second, now, s3);
    StepGet(ix, c, s3, k, now, found, s4);
    RunOfFour(
      ix, c, EMPTY, DoSet(first, now), Done, s1, DoRemove(Some(first.audience), Some(first.scope)), Done, s2,
      DoSet(second, now), Done, s3, DoGet(k, 0, false, false, now), Found(found), s4);
  }

  lemma WithAllKeys(c: string, first: CacheEntry, second: CacheEntry, k: CacheKey, now: int)
    requires Savable(c, first) && Savable(c, second)
    requires Serves(EntryKey(second), k) && ToKey(k) != EntryKey(second)
    ensures Run(AllKeys, c, EMPTY, SaveRemoveSave(first, second, k, now)).0
         == [Done, Done, Done, Found(Some(EntryBody(second)))]
  {
    var v1, v2 := Stamped(first, now), Stamped(second, now);
    var a1 := Put(EMPTY, EntryKey(first), v1);
    var a2 := Delete(a1, EntryKey(first));
    SavedAlone(EntryKey(first), v1, EntryKey(second), v2);
    FoundAlone(Put(a2, EntryKey(second), v2), EntryKey(second), v2, k, now);
    RunOfOps(AllKeys, c, first, second, k, now, a1, a2, Put(a2, EntryKey(second), v2), Some(v2.body));
  }

  lemma SavedAlone(first: string, v1: Value, second: string, v2: Value)
    ensures var a := Put(Delete(Put(EMPTY, first, v1), first), second, v2);
            a.order == [second] && a.entries == map[second := v2]
  {
    assert AddKey([], first) == [first] && RemoveKey([first], first) == [] && AddKey([], second) == [second];
  }

  lemma WithManifest(c: string, first: CacheEntry, second: CacheEntry, k: CacheKey, now: int)
    requires Savable(c, first) && Savable(c, second) && EntryKey(first) != EntryKey(second)
    requires Serves(EntryKey(first), k) && ToKey(k) != EntryKey(second) && ToKey(k) != ManifestKey(c)
    ensures Run(ManifestOf(c), c, EMPTY, SaveRemoveSave(first, second, k, now)).0 == [Done, Done, Done, Found(None)]
  {
    var ix, v1, v2 := ManifestOf(c), Stamped(first, now), Stamped(second, now);
    var b1 := PutNoted(ix, EMPTY, EntryKey(first), v1);
    FirstSave(c, EntryKey(first), v1);
    var b2 := Delete(b1, EntryKey(first));
    RemoveKeepsListed(c, b1, EntryKey(first), v1);
    var b3 := PutNoted(ix, b2, EntryKey(second), v2);
    LaterSave(c, b2, EntryKey(first), EntryKey(second), v2);
    HiddenByFirst(c, b3, EntryKey(first), EntryKey(second), v2, k, now);
    RunOfOps(ix, c, first, second, k, now, b1, b2, b3, None);
  }

  /**
   * With `remove` the two indexes do differ, starting from nothing: the key that the manifest still lists
   * hides the second entry, which a cache that lists its own keys returns.
   */
  lemma RemoveMakesThemDiffer(c: string, first: CacheEntry, second: CacheEntry, k: CacheKey, now: int)
    requires Savable(c, first) && Savable(c, second) && EntryKey(first) != EntryKey(second)
    requires Serves(EntryKey(first), k) && Serves(EntryKey(second), k)
    requires ToKey(k) != EntryKey(second) && ToKey(k) != ManifestKey(c)
    ensures Run(AllKeys, c, EMPTY, SaveRemoveSave(first, second, k, now)).0
         == [Done, Done, Done, Found(Some(EntryBody(second)))]
    ensures Run(ManifestOf(c), c, EMPTY, SaveRemoveSave(first, second, k, now)).0 == [Done, Done, Done, Found(None)]
  {
    WithAllKeys(c, first, second, k, now);
    WithManifest(c, first, second, k, now);
  }

  // ------------------------------------------------------------ such inputs

  /** A name or word without the characters that keys and scopes are cut at. */
  predicate Word(s: string) {
    s != "" && ':' !in s && ' ' !in s
  }

  function EntryOf(c: string, a: string, scope: string): CacheEntry {
    CacheEntry(c, a, scope, "token", None, None, 3600, None, None)
  }

  lemma KeyIsRepresentable(p: string, c: string, a: string, s: string)
    requires Clean(p, SEP) && p != "" && Plain(c) && Plain(a) && Plain(s)
    ensures Representable(CacheKey(p, Some(c), Some(a), Some(s), None))
  {
    assert Parts(CacheKey(p, Some(c), Some(a), Some(s), None)) == [p, c, a, s];
  }

  lemma KeyOfWords(c: string, a: string, scope: string)
    requires c != "" && ':' !in c && a != "" && ':' !in a && scope != "" && ':' !in scope
    ensures Plain(c) && Representable(TokenKey(c, a, scope))
    ensures FromKey(ToKey(TokenKey(c, a, scope))) == TokenKey(c, a, scope)
    ensures ToKey(TokenKey(c, a, scope)) != ManifestKey(c)
  {
    NoColonIsPlain(c);
    NoColonIsPlain(a);
    NoColonIsPlain(scope);
    NoColonIsPlain(CACHE_KEY_PREFIX);
    KeyIsRepresentable(CACHE_KEY_PREFIX, c, a, scope);
    FromKeyInvertsToKeyExactly(TokenKey(c, a, scope));
    KindsOfKeysAreDisjoint(c, c, TokenKey(c, a, scope));
  }

  lemma ScopeOfTwo(a: string, b: string)
    requires ' ' !in a && ' ' !in b
    ensures Split(a + " " + b, " ") == [a, b] && Split(a, " ") == [a]
  {
    CleanForOneChar(a, ' ');
    CleanForOneChar(b, ' ');
    SplitOfFree(a, " ");
    SplitOfFree(b, " ");
    SplitCutsCleanPart(a, b, " ");
  }

  lemma PairServesWord(c: string, a: string, w: string, x: string)
    requires Word(c) && Word(a) && Word(w) && Word(x)
    ensures Serves(ToKey(TokenKey(c, a, w + " " + x)), TokenKey(c, a, w))
    ensures ToKey(TokenKey(c, a, w)) != ToKey(TokenKey(c, a, w + " " + x))
    ensures ToKey(TokenKey(c, a, w + " " + x)) != ManifestKey(c)
    ensures ToKey(TokenKey(c, a, w)) != ManifestKey(c)
    ensures FromKey(ToKey(TokenKey(c, a, w + " " + x))) == TokenKey(c, a, w + " " + x)
  {
    KeyOfWords(c, a, w);
    KeyOfWords(c, a, w + " " + x);
    ScopeOfTwo(w, x);
  }

  /** For any names and three words: saved for two of them, removed, saved for another two, looked up for the first. */
  lemma RemoveMakesWordMiss(c: string, a: string, w: string, x: string, y: string, now: int)
    requires Word(c) && Word(a) && Word(w) && Word(x) && Word(y) && x != y
    ensures var second := EntryOf(c, a, w + " " + y);
            var ops := SaveRemoveSave(EntryOf(c, a, w + " " + x), second, TokenKey(c, a, w), now);
            && Run(AllKeys, c, EMPTY, ops).0 == [Done, Done, Done, Found(Some(EntryBody(second)))]
            && Run(ManifestOf(c), c, EMPTY, ops).0 == [Done, Done, Done, Found(None)]
  {
    PairServesWord(c, a, w, x);
    PairServesWord(c, a, w, y);
    assert (w + " " + x)[|w| + 1..] == x && (w + " " + y)[|w| + 1..] == y;
    RemoveMakesThemDiffer(c, EntryOf(c, a, w + " " + x), EntryOf(c, a, w + " " + y), TokenKey(c, a, w), now);
  }

  /** Saved for `read write`, removed, saved for `read admin`, looked up for `read`: only the manifest misses. */
  lemma RemoveMakesReadMiss()
    ensures var second := EntryOf("app", "api", "read" + " " + "admin");
            var ops := SaveRemoveSave(EntryOf("app", "api", "read" + " " + "write"), second,
              TokenKey("app", "api", "read"), 0);
            && Run(AllKeys, "app", EMPTY, ops).0 == [Done, Done, Done, Found(Some(EntryBody(second)))]
            && Run(ManifestOf("app"), "app", EMPTY, ops).0 == [Done, Done, Done, Found(None)]
  {
    RemoveMakesWordMiss("app", "api", "read", "write", "admin", 0);
  }

  // ------------------------------------------------------------ the key written for a scope with `::`

  /**
   * A scope with `::` likewise, starting from nothing: an entry saved for it, expired, and looked up for a
   * part of its scope before `::` leaves two entries.
   */
  lemma SeparatorDoublesEntry(c: string, a: string, w: string, x: string, t: string, saved: int, now: int)
    requires Word(c) && Word(a) && Word(w) && Word(x) && Word(t)
    requires FloorSeconds(saved) + 3600 < FloorSeconds(now)
    ensures var scope := w + " " + x + SEP + t;
            var e := EntryOf(c, a, scope).(refreshToken := Some("rt"));
            var st := PutNoted(AllKeys, EMPTY, EntryKey(e), Stamped(e, saved));
            var st' := Get(AllKeys, st, TokenKey(c, a, w), 0, false, false, now).1;
            && (forall key :: key in st.entries <==> key == EntryKey(e))
            && (forall key :: key in st'.entries <==> key == EntryKey(e) || key == ToKey(TokenKey(c, a, w + " " + x)))
            && EntryKey(e) != ToKey(TokenKey(c, a, w + " " + x))
  {
    var s := w + " " + x;
    KeyOfWords(c, a, s);
    KeyOfWords(c, a, w);
    NoColonIsPlain(a);
    NoColonIsPlain(s);
    NoColonIsPlain(t);
    GhostOfSeparator(c, a, s, t);
    PairServesWord(c, a, w, x);
    NarrowIsOther(c, a, w, s, t);
    var e := EntryOf(c, a, s + SEP + t).(refreshToken := Some("rt"));
    var full, part, k := EntryKey(e), ToKey(TokenKey(c, a, s)), TokenKey(c, a, w);
    SamePartsServe(part, full, k);
    DoubledFrom(full, part, Stamped(e, saved), k, now);
  }

  lemma SamePartsServe(key: string, other: string, k: CacheKey)
    requires FromKey(key) == FromKey(other) && Serves(key, k)
    ensures Serves(other, k)
  {
  }

  lemma NarrowIsOther(c: string, a: string, w: string, s: string, t: string)
    requires Plain(c) && Plain(a) && Plain(s) && Plain(t) && Representable(TokenKey(c, a, w)) && w != s
    ensures ToKey(TokenKey(c, a, w)) != ToKey(TokenKey(c, a, s + SEP + t))
  {
    GhostOfSeparator(c, a, s, t);
    FromKeyInvertsToKeyExactly(TokenKey(c, a, w));
  }

  lemma DoubledFrom(full: string, part: string, v: Value, k: CacheKey, now: int)
    requires v.Token? && Expired(v, 0, now) && Truthy(v.body.refreshToken)
    requires part == ToKey(FromKey(full)) != full && Serves(full, k) && ToKey(k) != full
    ensures var st := Put(EMPTY, full, v);
            var st' := Get(AllKeys, st, k, 0, false, false, now).1;
            && (forall key :: key in st.entries <==> key == full)
            && (forall key :: key in st'.entries <==> key == full || key == part)
  {
    var st := Put(EMPTY, full, v);
    assert AddKey([], full) == [full];
    assert FirstServing([full], k) == Some(full);
  }

  // ------------------------------------------------------------ clearing

  lemma LongerIsIncluded(s: string, c: string, x: string)
    requires Includes(s, c + x)
    ensures Includes(s, c)
  {
    var i :| 0 <= i <= |s| && c + x <= s[i..];
    assert c <= c + x;
  }

  /** In a cache with `allKeys`, clearing for one client removes the entry of another whose id begins with its id. */
  lemma ClearReachesLongerId(c: string, x: string, e: CacheEntry, now: int)
    requires c != "" && e.clientId == c + x
    ensures var st := PutNoted(AllKeys, EMPTY, EntryKey(e), Stamped(e, now));
            EntryKey(e) in st.entries && EntryKey(e) !in Clear(AllKeys, st, Some(c)).entries
  {
    EntryKeyNamesClient(c + x, e.audience, e.scope);
    LongerIsIncluded(EntryKey(e), c, x);
    var st := PutNoted(AllKeys, EMPTY, EntryKey(e), Stamped(e, now));
    assert AddKey([], EntryKey(e)) == [EntryKey(e)];
    assert Concerning([EntryKey(e)], Some(c)) == [EntryKey(e)];
    assert DeleteAll(st, [EntryKey(e)]) == Delete(st, EntryKey(e));
  }

  /** Client `app` clears its own entries, and the one of `app2` goes. */
  lemma ClearReachesApp2()
    ensures var e := EntryOf("app" + "2", "api", "read");
            var st := PutNoted(AllKeys, EMPTY, EntryKey(e), Stamped(e, 0));
            EntryKey(e) in st.entries && EntryKey(e) !in Clear(AllKeys, st, Some("app")).entries
  {
    ClearReachesLongerId("app", "2", EntryOf("app" + "2", "api", "read"), 0);
  }

  lemma ClearNothing(c: string, st: Store, key: string, id: string)
    requires KeyList(ManifestOf(c), st) == Some([key]) && id != "" && !Includes(key, id)
    ensures Clear(ManifestOf(c), st, Some(id)) == Delete(st, ManifestKey(c))
  {
    assert Concerning([key], Some(id)) == [];
  }

  /** With a manifest, clearing for an id that the key does not include leaves the entry, and nothing lists it. */
  lemma ClearLeavesUnlisted(c: string, e: CacheEntry, id: string, now: int)
    requires EntryKey(e) != ManifestKey(c) && id != "" && !Includes(EntryKey(e), id)
    ensures var ix, key := ManifestOf(c), EntryKey(e);
            var st := PutNoted(ix, EMPTY, key, Stamped(e, now));
            var st' := Clear(ix, st, Some(id));
            && KeyList(ix, st) == Some([key]) && KeyList(ix, st').None?
            && key in st'.entries && st'.entries[key] == Stamped(e, now)
  {
    FirstSave(c, EntryKey(e), Stamped(e, now));
    ClearNothing(c, PutNoted(ManifestOf(c), EMPTY, EntryKey(e), Stamped(e, now)), EntryKey(e), id);
  }

  lemma NotIncluded(s: string, id: string)
    requires id != "" && id[0] !in s
    ensures !Includes(s, id)
  {
    forall i | 0 <= i <= |s|
      ensures !(id <= s[i..])
    {
      if i < |s| {
        assert s[i..][0] == s[i];
      }
    }
  }

  lemma NotInKey(ch: char, c: string, a: string, s: string)
    requires ch !in CACHE_KEY_PREFIX && ch != ':' && ch !in c && ch !in a && ch !in s
    requires c != "" && a != "" && s != ""
    ensures ch !in ToKey(TokenKey(c, a, s))
  {
    assert Parts(TokenKey(c, a, s)) == [CACHE_KEY_PREFIX, c, a, s];
    JoinFour(CACHE_KEY_PREFIX, c, a, s);
  }

  /** For any names, and an id that begins with a character none of them has. */
  lemma ClearForForeignId(c: string, a: string, s: string, id: string, now: int)
    requires Word(c) && Word(a) && Word(s) && id != "" && id[0] != ':'
    requires id[0] !in CACHE_KEY_PREFIX && id[0] !in c && id[0] !in a && id[0] !in s
    ensures var ix, e := ManifestOf(c), EntryOf(c, a, s);
            var st' := Clear(ix, PutNoted(ix, EMPTY, EntryKey(e), Stamped(e, now)), Some(id));
            EntryKey(e) in st'.entries && KeyList(ix, st').None?
  {
    KeyOfWords(c, a, s);
    NotInKey(id[0], c, a, s);
    NotIncluded(ToKey(TokenKey(c, a, s)), id);
    ClearLeavesUnlisted(c, EntryOf(c, a, s), id, now);
  }

  /** Client `app` clears for the id `other`. */
  lemma ClearForOtherLeavesUnlisted()
    ensures var ix, e := ManifestOf("app"), EntryOf("app", "api", "read");
            var st' := Clear(ix, PutNoted(ix, EMPTY, EntryKey(e), Stamped(e, 0)), Some("other"));
            EntryKey(e) in st'.entries && KeyList(ix, st').None?
  {
    ClearForForeignId("app", "api", "read", "other", 0);
  }
}
