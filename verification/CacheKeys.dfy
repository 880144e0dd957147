/** The string keys of the token cache (`CacheKey`) and the two fixed keys beside them. */
module CacheKeys {
  import opened Prelude
  import opened Text

  const CACHE_KEY_PREFIX := "@@auth0spajs@@"
  const CACHE_KEY_ID_TOKEN_SUFFIX := "@@user@@"
  const SEP := "::"

  datatype CacheKey = CacheKey(
    prefix: string,
    clientId: Option<string>,
    audience: Option<string>,
    scope: Option<string>,
    suffix: Option<string>)

  /** A key as the client builds it to look something up or to store it. */
  function TokenKey(clientId: string, audience: string, scope: string): CacheKey {
    CacheKey(CACHE_KEY_PREFIX, Some(clientId), Some(audience), Some(scope), None)
  }

  /** What `.filter(Boolean)` keeps of one field. */
  function Kept(field: Option<string>): seq<string> {
    if Truthy(field) then [field.value] else []
  }

  function Parts(k: CacheKey): seq<string> {
    Kept(Some(k.prefix)) + Kept(k.clientId) + Kept(k.audience) + Kept(k.scope) + Kept(k.suffix)
  }

  function ToKey(k: CacheKey): string {
    Join(Parts(k), SEP)
  }

  /** Array destructuring: a missing position reads as undefined. */
  function At(parts: seq<string>, i: nat): Option<string> {
    if i < |parts| then Some(parts[i]) else None
  }

  function FromKey(key: string): CacheKey {
    var parts := Split(key, SEP);
    CacheKey(parts[0], At(parts, 1), At(parts, 2), At(parts, 3), None)
  }

  function IdTokenKey(clientId: string): string {
    ToKey(CacheKey(CACHE_KEY_PREFIX, Some(clientId), None, None, Some(CACHE_KEY_ID_TOKEN_SUFFIX)))
  }

  function ManifestKey(clientId: string): string {
    Join([CACHE_KEY_PREFIX, clientId], SEP)
  }

  /** Fields filled from the left without a gap, none of them empty, every separator where it belongs. */
  ghost predicate Representable(k: CacheKey) {
    && k.suffix.None?
    && (k.clientId.None? ==> k.audience.None?)
    && (k.audience.None? ==> k.scope.None?)
    && (k.clientId.Some? ==> k.clientId.value != "")
    && (k.audience.Some? ==> k.audience.value != "")
    && (k.scope.Some? ==> k.scope.value != "")
    && CleanParts(Parts(k), SEP)
  }

  /** Length of a joined list, counting one separator too many. */
  function JoinedLength(parts: seq<string>): nat {
    if parts == [] then 0 else |parts[0]| + |SEP| + JoinedLength(parts[1..])
  }

  lemma {:induction false} JoinedLengthIsLength(parts: seq<string>)
    requires parts != []
    ensures |Join(parts, SEP)| + |SEP| == JoinedLength(parts)
  {
    if |parts| > 1 {
      JoinedLengthIsLength(parts[1..]);
    }
  }

  /** The non-empty ones among the `n` parts from position `i` on. */
  function KeepFrom(q: seq<string>, i: nat, n: nat): seq<string>
    decreases n
  {
    if i >= |q| || n == 0 then [] else Kept(Some(q[i])) + KeepFrom(q, i + 1, n - 1)
  }

  lemma Reassociate(a: seq<string>, b: seq<string>, c: seq<string>, d: seq<string>)
    ensures a + (b + (c + (d + []))) == a + b + c + d + []
  {
  }

  /** Only the first four parts of a key survive `fromKey`, and only those that are not empty. */
  lemma PartsOfFromKey(key: string)
    ensures Parts(FromKey(key)) == KeepFrom(Split(key, SEP), 0, 4)
  {
    FourKept(Split(key, SEP));
  }

  lemma FourKept(q: seq<string>)
    requires |q| >= 1
    ensures KeepFrom(q, 0, 4) == Kept(Some(q[0])) + Kept(At(q, 1)) + Kept(At(q, 2)) + Kept(At(q, 3)) + Kept(None)
  {
    var k1, k2, k3, k4 := KeepFrom(q, 1, 3), KeepFrom(q, 2, 2), KeepFrom(q, 3, 1), KeepFrom(q, 4, 0);
    assert k4 == [];
    assert k3 == Kept(At(q, 3)) + k4;
    assert k2 == Kept(At(q, 2)) + k3;
    assert k1 == Kept(At(q, 1)) + k2;
    Reassociate(Kept(Some(q[0])), Kept(At(q, 1)), Kept(At(q, 2)), Kept(At(q, 3)));
  }

  /** Dropping a part, empty or not, shortens the joined key. */
  lemma {:induction false} KeptIsShorter(q: seq<string>, i: nat, n: nat)
    requires i <= |q|
    ensures JoinedLength(KeepFrom(q, i, n)) <= JoinedLength(q[i..])
    ensures |q| - i > n || "" in q[i..] ==> JoinedLength(KeepFrom(q, i, n)) < JoinedLength(q[i..])
    ensures |q| - i <= n && "" !in q[i..] ==> KeepFrom(q, i, n) == q[i..]
    decreases n
  {
    if i < |q| {
      assert q[i..][1..] == q[i + 1..] && q[i..] == [q[i]] + q[i + 1..];
      if n != 0 {
        KeptIsShorter(q, i + 1, n - 1);
        var rest := KeepFrom(q, i + 1, n - 1);
        if q[i] == "" {
          assert KeepFrom(q, i, n) == rest;
        } else {
          assert ([q[i]] + rest)[1..] == rest;
        }
      }
    }
  }

  predicate Restorable(key: string) {
    key == "" || (|Split(key, SEP)| <= 4 && "" !in Split(key, SEP))
  }

  /**
   * `fromKey(key).toKey()` names the stored entry again for exactly the keys with at most four
   * parts, all of them non-empty. The cache manager relies on this when it strips an expired entry.
   */
  lemma ResolvedKeyIsExact(key: string)
    ensures ToKey(FromKey(key)) == key <==> Restorable(key)
  {
    var q := Split(key, SEP);
    JoinOfSplit(key, SEP);
    PartsOfFromKey(key);
    KeptIsShorter(q, 0, 4);
    assert q[0..] == q;
    JoinedLengthIsLength(q);
    var kept := Parts(FromKey(key));
    if kept != [] {
      JoinedLengthIsLength(kept);
    }
  }

  /** `fromKey` inverts `toKey` on exactly the representable keys. */
  lemma FromKeyInvertsToKeyExactly(k: CacheKey)
    requires k.prefix != ""
    ensures FromKey(ToKey(k)) == k <==> Representable(k)
  {
    var s := ToKey(k);
    var p := Parts(k);
    assert p[0] == k.prefix;
    if Representable(k) {
      SplitOfCleanJoin(p, SEP);
    }
    if FromKey(s) == k {
      ResolvedKeyIsExact(s);
      JoinedLengthIsLength(p);
      assert JoinedLength(p) >= |p[0]| + |SEP|;
      PartsOfFromKey(s);
      KeptIsShorter(Split(s, SEP), 0, 4);
      assert Split(s, SEP)[0..] == Split(s, SEP);
      SplitGivesCleanParts(s, SEP);
    }
  }

  /** Two representable keys never share a string, so no entry overwrites another. */
  lemma ToKeyIsInjective(k: CacheKey, k': CacheKey)
    requires Representable(k) && Representable(k') && k.prefix != "" && k'.prefix != ""
    requires ToKey(k) == ToKey(k')
    ensures k == k'
  {
    FromKeyInvertsToKeyExactly(k);
    FromKeyInvertsToKeyExactly(k');
  }

  /** Ids that cannot be confused with a separator, as a client id of the service. */
  predicate Plain(s: string) {
    s != "" && Clean(s, SEP) && Free(s, SEP)
  }

  lemma {:induction false} NoColonIsPlain(p: string)
    requires ':' !in p
    ensures Clean(p, SEP) && Free(p, SEP)
  {
    if p != "" {
      NoColonIsPlain(p[1..]);
      assert (p + SEP)[0] == p[0] != ':';
    }
  }

  lemma TwoParts(p: string, c: string)
    requires Clean(p, SEP) && Free(c, SEP)
    ensures Split(Join([p, c], SEP), SEP) == [p, c]
  {
    JoinCons(p, [c], SEP);
    assert [p] + [c] == [p, c];
    SplitCutsCleanPart(p, c, SEP);
    SplitOfFree(c, SEP);
  }

  lemma ThreeParts(p: string, c: string, t: string)
    requires p != "" && c != "" && t != "" && Clean(p, SEP) && Clean(c, SEP) && Free(t, SEP)
    ensures Split(ToKey(CacheKey(p, Some(c), None, None, Some(t))), SEP) == [p, c, t]
  {
    var parts := Parts(CacheKey(p, Some(c), None, None, Some(t)));
    assert parts == [p, c, t];
    SplitOfCleanJoin(parts, SEP);
  }

  lemma FixedKeyParts(clientId: string)
    requires Plain(clientId)
    ensures Split(ManifestKey(clientId), SEP) == [CACHE_KEY_PREFIX, clientId]
    ensures Split(IdTokenKey(clientId), SEP) == [CACHE_KEY_PREFIX, clientId, CACHE_KEY_ID_TOKEN_SUFFIX]
  {
    NoColonIsPlain(CACHE_KEY_PREFIX);
    NoColonIsPlain(CACHE_KEY_ID_TOKEN_SUFFIX);
    TwoParts(CACHE_KEY_PREFIX, clientId);
    ThreeParts(CACHE_KEY_PREFIX, clientId, CACHE_KEY_ID_TOKEN_SUFFIX);
  }

  /**
   * Id token, manifest and token entries live under different keys, for any two clients; the first
   * two have no scope part, which is what keeps them out of scope matching.
   */
  lemma KindsOfKeysAreDisjoint(c: string, c': string, k: CacheKey)
    requires Plain(c) && Plain(c')
    requires Representable(k) && k.prefix != "" && k.scope.Some?
    ensures IdTokenKey(c) != ManifestKey(c')
    ensures ToKey(k) != ManifestKey(c) && ToKey(k) != IdTokenKey(c)
    ensures FromKey(ManifestKey(c)).scope.None? && FromKey(IdTokenKey(c)).scope.None?
    ensures FromKey(ManifestKey(c)).clientId == Some(c) == FromKey(IdTokenKey(c)).clientId
  {
    FixedKeyParts(c);
    FixedKeyParts(c');
    SplitOfCleanJoin(Parts(k), SEP);
  }
}
