/** Revoking the refresh tokens of one audience, one request at a time, when any request may fail. */
module Revocation {
  import opened Prelude
  import opened CacheKeys
  import opened TokenStore
  import opened StoreInvariants

  /** How many requests are accepted before one fails; requests without an outcome fail too. */
  function Accepted(tokens: seq<string>, outcomes: seq<bool>): (n: nat)
    ensures n <= |tokens| && n <= |outcomes|
    ensures forall i :: 0 <= i < n ==> outcomes[i]
    ensures n < |tokens| ==> n == |outcomes| || !outcomes[n]
  {
    if tokens == [] || outcomes == [] || !outcomes[0] then 0 else 1 + Accepted(tokens[1..], outcomes[1..])
  }

  lemma {:induction false} AcceptedIsFirstFailure(tokens: seq<string>, outcomes: seq<bool>, n: nat)
    requires n <= |tokens| && n <= |outcomes| && forall i :: 0 <= i < n ==> outcomes[i]
    requires n < |tokens| ==> n == |outcomes| || !outcomes[n]
    ensures Accepted(tokens, outcomes) == n
  {
    if n > 0 {
      AcceptedIsFirstFailure(tokens[1..], outcomes[1..], n - 1);
    }
  }

  function StripAll(ix: Index, st: Store, tokens: seq<string>): Store {
    if tokens == [] then st
    else StripRefreshToken(ix, StripAll(ix, st, tokens[..|tokens| - 1]), tokens[|tokens| - 1])
  }

  /** The tokens revoked for an audience, and the cache afterwards. */
  function Revoke(ix: Index, st: Store, audience: string, clientId: string, outcomes: seq<bool>): (bool, Store) {
    var tokens := RefreshTokensByAudience(ix, st, audience, clientId);
    var n := Accepted(tokens, outcomes);
    (n == |tokens|, StripAll(ix, st, tokens[..n]))
  }

  function WithoutTokens(v: Value, tokens: seq<string>): Value {
    if v.Token? && v.body.refreshToken.Some? && v.body.refreshToken.value in tokens
    then v.(body := v.body.(refreshToken := None)) else v
  }

  lemma {:induction false} StripAllPointwise(ix: Index, st: Store, tokens: seq<string>)
    requires Inv(ix, st)
    ensures var st' := StripAll(ix, st, tokens);
            && Inv(ix, st') && st'.order == st.order && st'.entries.Keys == st.entries.Keys
            && forall key :: key in st.entries ==> st'.entries[key] == WithoutTokens(st.entries[key], tokens)
  {
    if tokens != [] {
      var front, last := tokens[..|tokens| - 1], tokens[|tokens| - 1];
      StripAllPointwise(ix, st, front);
      StripKeepsInv(ix, StripAll(ix, st, front), last);
      assert tokens == front + [last];
      StripOnePointwise(ix, StripAll(ix, st, front), last);
    }
  }

  lemma StripOnePointwise(ix: Index, st: Store, token: string)
    requires Inv(ix, st)
    ensures var st' := StripRefreshToken(ix, st, token);
            && st'.order == st.order && st'.entries.Keys == st.entries.Keys
            && forall key :: key in st.entries ==> st'.entries[key] == WithoutToken(st.entries[key], token)
  {
  }

  lemma {:induction false} HeldTokensAreListed(
      st: Store, keys: seq<string>, audience: string, clientId: string, key: string)
    requires key in keys && ForAudience(key, audience, clientId)
    requires key in st.entries && st.entries[key].Token? && Truthy(st.entries[key].body.refreshToken)
    ensures st.entries[key].body.refreshToken.value in HeldTokens(st, keys, audience, clientId)
  {
    if keys[0] != key {
      HeldTokensAreListed(st, keys[1..], audience, clientId, key);
    }
  }

  lemma {:induction false} HeldTokensAreHeld(
      st: Store, keys: seq<string>, audience: string, clientId: string, token: string)
    ensures token in HeldTokens(st, keys, audience, clientId)
      <==> exists key :: key in keys && OfAudience(key, audience, clientId) && HoldsRefreshToken(st, key)
                         && st.entries[key].body.refreshToken == Some(token)
  {
    if keys != [] {
      HeldTokensAreHeld(st, keys[1..], audience, clientId, token);
      assert keys == [keys[0]] + keys[1..];
    }
  }

  /** A token key of the client and audience, by its parts. */
  predicate OfAudience(key: string, audience: string, clientId: string) {
    && FromKey(key).prefix == "@@auth0spajs@@" && FromKey(key).clientId == Some(clientId)
    && FromKey(key).audience == Some(audience)
  }

  /** The tokens to revoke are those that the listed entries of the client and audience hold, once each. */
  lemma RevokedAreHeld(ix: Index, st: Store, audience: string, clientId: string, token: string)
    ensures token in RefreshTokensByAudience(ix, st, audience, clientId)
      <==> KeyList(ix, st).Some?
           && exists key :: key in KeyList(ix, st).value && OfAudience(key, audience, clientId)
                && HoldsRefreshToken(st, key) && st.entries[key].body.refreshToken == Some(token)
    ensures Distinct(RefreshTokensByAudience(ix, st, audience, clientId))
  {
    if KeyList(ix, st).Some? {
      HeldTokensAreHeld(st, KeyList(ix, st).value, audience, clientId, token);
      DedupeIsDistinct(HeldTokens(st, KeyList(ix, st).value, audience, clientId));
    }
  }

  /**
   * Revocation is exact. If the requests for the first n distinct tokens of the audience are accepted
   * and the next fails, precisely those n tokens are gone, from every entry that shared them, whatever
   * its audience; nothing else changed, so access tokens survive. If all are accepted no entry of the
   * audience holds a refresh token.
   */
  lemma RevocationIsExact(ix: Index, st: Store, audience: string, clientId: string, outcomes: seq<bool>)
    requires Inv(ix, st)
    ensures var tokens := RefreshTokensByAudience(ix, st, audience, clientId);
            var n := Accepted(tokens, outcomes);
            var (ok, st') := Revoke(ix, st, audience, clientId, outcomes);
            && Distinct(tokens) && (ok <==> n == |tokens|)
            && st'.order == st.order && st'.entries.Keys == st.entries.Keys
            && (forall key :: key in st.entries ==> st'.entries[key] == WithoutTokens(st.entries[key], tokens[..n]))
            && (ok ==> forall key ::
                 key in st'.entries && ForAudience(key, audience, clientId) && st'.entries[key].Token? ==>
                 !Truthy(st'.entries[key].body.refreshToken))
  {
    var tokens := RefreshTokensByAudience(ix, st, audience, clientId);
    var n := Accepted(tokens, outcomes);
    StripAllPointwise(ix, st, tokens[..n]);
    if KeyList(ix, st).Some? {
      var keys := KeyList(ix, st).value;
      DedupeIsDistinct(HeldTokens(st, keys, audience, clientId));
      if n == |tokens| {
        assert tokens[..n] == tokens;
        forall key | key in st.entries && ForAudience(key, audience, clientId) && st.entries[key].Token?
                     && Truthy(st.entries[key].body.refreshToken)
          ensures st.entries[key].body.refreshToken.value in tokens
        {
          assert !IsManifestKey(ix, key);
          HeldTokensAreListed(st, keys, audience, clientId, key);
        }
      }
    }
  }
}
