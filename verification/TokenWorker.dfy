/**
 * The worker's own refresh token store. A message handler runs in two pieces, before and after its
 * fetch, and between the two any other handler may run.
 */
module TokenWorker {
  import opened Prelude
  import opened Text

  const LATEST := "latest_refresh_token"
  const BAR := "|"

  /** The record `refreshTokens`, with the order its properties were added in. */
  datatype Vault = Vault(tokens: map<string, string>, order: seq<string>)

  const EMPTY_VAULT := Vault(map[], [])

  /** What the body of a token request is: a refresh without token, an MFA completion, or anything else. */
  datatype Kind = RefreshGrant | MfaCompletion | OtherGrant

  datatype Message = Message(
    audience: string,
    scope: string,
    kind: Kind,
    useMrrt: bool,
    skipTokenStorage: bool,
    preserveRefreshToken: bool)

  /** How the fetch ended; `Json` carries the token endpoint's answer. */
  datatype Response = FetchError | TimedOut | Json(ok: bool, refreshToken: Option<string>)

  datatype Posted = Reply(ok: bool, refreshToken: Option<string>) | PostedError

  function StoreKey(audience: string, scope: string): string {
    audience + BAR + scope
  }

  predicate ForAudience(key: string, audience: string) {
    audience + BAR <= key
  }

  function Lookup(v: Vault, key: string): Option<string> {
    if key in v.tokens then Some(v.tokens[key]) else None
  }

  function SetToken(v: Vault, key: string, token: string): Vault {
    Vault(v.tokens[key := token], AddKey(v.order, key))
  }

  function DeleteToken(v: Vault, key: string): Vault {
    Vault(v.tokens - {key}, RemoveKey(v.order, key))
  }

  /** The rotation reaches every entry that holds the old token; there is none when no token was captured. */
  function ReplaceToken(v: Vault, previous: Option<string>, next: string): Vault {
    Vault(map key | key in v.tokens :: if Some(v.tokens[key]) == previous then next else v.tokens[key], v.order)
  }

  function DeleteByValue(v: Vault, token: string): Vault {
    Vault(map key | key in v.tokens && v.tokens[key] != token :: v.tokens[key], Dropped(v, v.order, token))
  }

  function Dropped(v: Vault, keys: seq<string>, token: string): seq<string> {
    if keys == [] then []
    else (if keys[0] in v.tokens && v.tokens[keys[0]] == token then [] else [keys[0]]) + Dropped(v, keys[1..], token)
  }

  /** Some stored entry of the audience already covers the scopes. */
  predicate Downscopes(v: Vault, scope: string, audience: string) {
    exists key :: key in v.tokens && key != LATEST && ForAudience(key, audience) && Covers(key, scope)
  }

  predicate Covers(key: string, scope: string) {
    var parts := Split(key, BAR);
    |parts| > 1 && forall s :: s in Split(scope, " ") ==> s in Split(parts[1], " ")
  }

  /** The token the first piece of a handler captures. */
  function Captured(v: Vault, m: Message): Option<string> {
    var own := Lookup(v, StoreKey(m.audience, m.scope));
    match m.kind
    case OtherGrant => None
    case MfaCompletion => if !Truthy(own) && m.useMrrt then Lookup(v, LATEST) else own
    case RefreshGrant =>
      if !Truthy(own) && m.useMrrt && Truthy(Lookup(v, LATEST)) && !Downscopes(v, m.scope, m.audience)
      then Lookup(v, LATEST) else own
  }

  /** A refresh without any token is answered with an error instead of a request. */
  predicate MissesToken(v: Vault, m: Message) {
    m.kind.RefreshGrant? && !Truthy(Captured(v, m))
  }

  /** The second piece of a handler, given the token captured by the first. */
  function Completed(v: Vault, m: Message, captured: Option<string>, r: Response): Vault {
    var key := StoreKey(m.audience, m.scope);
    if !r.Json? || m.skipTokenStorage then v
    else if Truthy(r.refreshToken) then
      var v1 :=
        if m.useMrrt
        then ReplaceToken(SetToken(v, LATEST, r.refreshToken.value), captured, r.refreshToken.value)
        else v;
      SetToken(v1, key, r.refreshToken.value)
    else if m.preserveRefreshToken then v
    else DeleteToken(v, key)
  }

  function HeldTokens(v: Vault, keys: seq<string>, audience: string): seq<string> {
    if keys == [] then []
    else
      (if ForAudience(keys[0], audience) && keys[0] in v.tokens then [v.tokens[keys[0]]] else [])
      + HeldTokens(v, keys[1..], audience)
  }

  function TokensByAudience(v: Vault, audience: string): seq<string> {
    Dedupe(HeldTokens(v, v.order, audience))
  }

  class Worker {
    var refreshTokens: map<string, string>
    var order: seq<string>

    constructor ()
      ensures Contents() == EMPTY_VAULT
    {
      refreshTokens, order := map[], [];
    }

    function Contents(): Vault
      reads this
    {
      Vault(refreshTokens, order)
    }

    method SetRefreshToken(key: string, token: string)
      modifies this
      ensures Contents() == SetToken(old(Contents()), key, token)
    {
      refreshTokens, order := refreshTokens[key := token], AddKey(order, key);
    }

    method DeleteRefreshToken(key: string)
      modifies this
      ensures Contents() == DeleteToken(old(Contents()), key)
    {
      refreshTokens, order := refreshTokens - {key}, RemoveKey(order, key);
    }

    /** Visits every entry once, in any order, and rewrites those that hold the old token. */
    method UpdateRefreshTokens(previous: Option<string>, next: string)
      modifies this
      ensures Contents() == ReplaceToken(old(Contents()), previous, next)
    {
      var entries := refreshTokens;
      ghost var target := ReplaceToken(Contents(), previous, next);
      var todo := entries.Keys;
      while todo != {}
        invariant todo <= entries.Keys && refreshTokens.Keys == entries.Keys && order == target.order
        invariant forall key :: key in entries ==>
          refreshTokens[key] == if key in todo then entries[key] else target.tokens[key]
        decreases |todo|
      {
        var key :| key in todo;
        if Some(entries[key]) == previous {
          refreshTokens := refreshTokens[key := next];
        }
        todo := todo - {key};
      }
      assert refreshTokens == target.tokens;
    }

    method DeleteRefreshTokensByValue(token: string)
      modifies this
      ensures Contents() == DeleteByValue(old(Contents()), token)
    {
      ghost var was := Contents();
      var entries := order;
      order := Dropped(Contents(), order, token);
      var todo := refreshTokens.Keys;
      while todo != {}
        invariant todo <= was.tokens.Keys && refreshTokens.Keys <= was.tokens.Keys
          && order == Dropped(was, was.order, token)
        invariant forall key :: key in was.tokens ==>
          (key in refreshTokens <==> key in todo || was.tokens[key] != token)
        invariant forall key :: key in refreshTokens ==> refreshTokens[key] == was.tokens[key]
        decreases |todo|
      {
        var key :| key in todo;
        if refreshTokens[key] == token {
          refreshTokens := refreshTokens - {key};
        }
        todo := todo - {key};
      }
      assert refreshTokens == DeleteByValue(was, token).tokens;
    }

    /** The handler up to its fetch. */
    method StartRequest(m: Message) returns (missing: bool, captured: Option<string>)
      ensures captured == Captured(Contents(), m) && missing == MissesToken(Contents(), m)
    {
      var key := StoreKey(m.audience, m.scope);
      captured := None;
      match m.kind {
        case OtherGrant =>
        case MfaCompletion =>
          captured := Lookup(Contents(), key);
          if !Truthy(captured) && m.useMrrt {
            captured := Lookup(Contents(), LATEST);
          }
        case RefreshGrant =>
          captured := Lookup(Contents(), key);
          if !Truthy(captured) && m.useMrrt {
            var latest := Lookup(Contents(), LATEST);
            if Truthy(latest) && !Downscopes(Contents(), m.scope, m.audience) {
              captured := latest;
            }
          }
      }
      missing := m.kind.RefreshGrant? && !Truthy(captured);
    }

    /** The handler from the end of its fetch. The refresh token never leaves with the answer. */
    method CompleteRequest(m: Message, captured: Option<string>, r: Response) returns (posted: Posted)
      modifies this
      ensures Contents() == Completed(old(Contents()), m, captured, r)
      ensures posted == if r.Json? then Reply(r.ok, None) else PostedError
    {
      if !r.Json? {
        return PostedError;
      }
      if m.skipTokenStorage {
        return Reply(r.ok, None);
      }
      if Truthy(r.refreshToken) {
        if m.useMrrt {
          SetRefreshToken(LATEST, r.refreshToken.value);
          UpdateRefreshTokens(captured, r.refreshToken.value);
        }
        SetRefreshToken(StoreKey(m.audience, m.scope), r.refreshToken.value);
      } else if !m.preserveRefreshToken {
        DeleteRefreshToken(StoreKey(m.audience, m.scope));
      }
      return Reply(r.ok, None);
    }

    method Clear()
      modifies this
      ensures Contents() == EMPTY_VAULT
    {
      refreshTokens, order := map[], [];
    }

    /** The distinct tokens stored for an audience, in the order they are found. */
    method GetRefreshTokensByAudience(audience: string) returns (seen: seq<string>)
      ensures seen == TokensByAudience(Contents(), audience)
    {
      var keys := order;
      ghost var v := Contents();
      seen := [];
      for i := 0 to |keys|
        invariant seen == Dedupe(HeldTokens(v, keys[..i], audience))
      {
        OneMoreEntry(v, keys, i, audience);
        if ForAudience(keys[i], audience) && keys[i] in refreshTokens {
          seen := AddKey(seen, refreshTokens[keys[i]]);
        }
      }
      assert keys[..|keys|] == keys;
    }

    /** The revocation handler up to its first request: the tokens it will revoke, one request after another. */
    method RevokeStarts(audience: string) returns (tokensToRevoke: seq<string>)
      ensures tokensToRevoke == TokensByAudience(Contents(), audience)
    {
      tokensToRevoke := GetRefreshTokensByAudience(audience);
    }

    /** The answer to one of its requests: the handler goes on only after an accepted one. */
    method RevokeAnswered(token: string, accepted: bool) returns (goesOn: bool)
      modifies this
      ensures goesOn == accepted
      ensures Contents() == if accepted then DeleteByValue(old(Contents()), token) else old(Contents())
    {
      if accepted {
        DeleteRefreshTokensByValue(token);
      }
      return accepted;
    }
  }

  lemma {:induction false} HeldTokensOfLonger(v: Vault, keys: seq<string>, key: string, audience: string)
    ensures HeldTokens(v, keys + [key], audience) == HeldTokens(v, keys, audience) + HeldTokens(v, [key], audience)
  {
    if keys == [] {
      assert [] + [key] == [key];
    } else {
      HeldTokensOfLonger(v, keys[1..], key, audience);
      assert (keys + [key])[1..] == keys[1..] + [key];
    }
  }

  lemma OneMoreEntry(v: Vault, keys: seq<string>, i: nat, audience: string)
    requires i < |keys|
    ensures var seen := Dedupe(HeldTokens(v, keys[..i], audience));
            Dedupe(HeldTokens(v, keys[..i + 1], audience))
              == (if ForAudience(keys[i], audience) && keys[i] in v.tokens then AddKey(seen, v.tokens[keys[i]])
                else seen)
  {
    var held := HeldTokens(v, keys[..i], audience);
    assert keys[..i + 1] == keys[..i] + [keys[i]];
    HeldTokensOfLonger(v, keys[..i], keys[i], audience);
    if ForAudience(keys[i], audience) && keys[i] in v.tokens {
      DedupeOneMore(held, v.tokens[keys[i]]);
    } else {
      assert held + [] == held;
    }
  }
}
