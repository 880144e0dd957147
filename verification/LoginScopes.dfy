/**
 * Under which audience and scope a login is saved, and under which a later token request looks it up
 * (src/Auth0Client.ts, src/Auth0Client.utils.ts). The two are computed from different audiences.
 */
module LoginScopes {
  import opened Prelude
  import opened Text
  import opened CacheKeys
  import opened TokenStore
  import opened Scopes

  /** The `authorizationParams` of one call. */
  datatype Params = Params(scope: Option<string>, audience: Option<string>)

  datatype SlotName = SlotName(audience: string, scope: string)

  /** `{...configured, ...call}`: the call's audience if it has one. */
  function Merged(configured: Option<string>, call: Option<string>): Option<string> {
    if call.Some? then call else configured
  }

  /** `call || configured`. */
  function Either(configured: Option<string>, call: Option<string>): Option<string> {
    if Truthy(call) then call else configured
  }

  /**
   * `getAuthorizeParams` and what is saved after it: the scope is computed for the audience of the call
   * alone, the entry is saved for the merged one.
   */
  function SavedByLogin(auth: map<string, string>, configured: Option<string>, params: Params): SlotName {
    SlotName(OrElse(Merged(configured, params.audience), DEFAULT_AUDIENCE),
             ScopesToRequest(auth, params.scope, params.audience))
  }

  /** The parameters that `getTokenSilently` and `getTokenWithPopup` make of a call. */
  function TokenParams(auth: map<string, string>, configured: Option<string>, call: Params): Params {
    Params(
      Some(ScopesToRequest(auth, call.scope, Either(configured, call.audience))),
      Merged(configured, call.audience))
  }

  /** Where they look. */
  function LookedUp(auth: map<string, string>, configured: Option<string>, call: Params): SlotName {
    var params := TokenParams(auth, configured, call);
    SlotName(OrElse(params.audience, DEFAULT_AUDIENCE), params.scope.value)
  }

  /**
   * A login with the parameters of the token request: the popup of `getTokenWithPopup`, and the silent
   * flow in the iframe, which asks the server for this and saves under its own parameters.
   */
  function SavedByTokenFlow(auth: map<string, string>, configured: Option<string>, call: Params): SlotName {
    SavedByLogin(auth, configured, TokenParams(auth, configured, call))
  }

  /** These two save exactly where they will look. An audience is absent or real. */
  lemma TokenFlowsSaveWhereTheyLook(auth: map<string, string>, configured: Option<string>, call: Params)
    requires call.audience != Some("")
    ensures SavedByTokenFlow(auth, configured, call) == LookedUp(auth, configured, call)
  {
    ScopesToRequestIsStable(auth, call.scope, Either(configured, call.audience));
  }

  /** An empty audience in a call is not replaced by the configured one: it stands for the default audience. */
  lemma EmptyAudienceIsDefault(auth: map<string, string>, configured: Option<string>, scope: Option<string>)
    ensures LookedUp(auth, configured, Params(scope, Some(""))).audience == "default"
    ensures SavedByTokenFlow(auth, configured, Params(scope, Some(""))).audience == "default"
    ensures SavedByLogin(auth, configured, Params(scope, Some(""))).audience == "default"
  {
  }

  // ------------------------------------------------------------ a direct login

  /** The configured scopes of the audience looked up, and those that the login uses in their place. */
  function ScopesForLookup(auth: map<string, string>, configured: Option<string>, call: Params): seq<string> {
    OptionWords(ConfiguredFor(auth, Either(configured, call.audience)))
  }

  function ScopesForLogin(auth: map<string, string>, call: Params): seq<string> {
    OptionWords(ConfiguredFor(auth, call.audience))
  }

  /** Every scope configured for the audience is a default scope too, or named in the call. */
  predicate Covered(auth: map<string, string>, configured: Option<string>, call: Params) {
    forall w :: w in ScopesForLookup(auth, configured, call) ==>
      w in ScopesForLogin(auth, call) || w in OptionWords(call.scope)
  }

  /** A login that names its audience, or whose configured audience has no own scopes, saves where the lookup is. */
  lemma LoginSavesWhereLookedUp(auth: map<string, string>, configured: Option<string>, call: Params)
    requires Truthy(call.audience) || !Truthy(configured) || !Truthy(Scopes.At(auth, configured.value))
    ensures SavedByLogin(auth, configured, call) == LookedUp(auth, configured, call) && Covered(auth, configured, call)
  {
  }

  /**
   * In general a login's entry serves the token request with the same parameters if and only if every
   * scope configured for the audience is covered.
   */
  lemma LoginServesLookupExactly(
      clientId: string, auth: map<string, string>, configured: Option<string>, call: Params)
    requires var saved := SavedByLogin(auth, configured, call);
             Representable(TokenKey(clientId, saved.audience, saved.scope))
    requires ScopesForLookup(auth, configured, call) + OptionWords(call.scope) != []
    ensures var saved, wanted := SavedByLogin(auth, configured, call), LookedUp(auth, configured, call);
            && saved.audience == wanted.audience
            && (Serves(ToKey(TokenKey(clientId, saved.audience, saved.scope)),
                       TokenKey(clientId, wanted.audience, wanted.scope))
                <==> Covered(auth, configured, call))
  {
    var saved, wanted := SavedByLogin(auth, configured, call), LookedUp(auth, configured, call);
    FromKeyInvertsToKeyExactly(TokenKey(clientId, saved.audience, saved.scope));
    SavedScopeHasWords(auth, call);
    SplitOfWords(auth, call.scope, call.audience, ScopesForLogin(auth, call));
    SplitOfWords(auth, call.scope, Either(configured, call.audience), ScopesForLookup(auth, configured, call));
    ServesByWords(
      clientId, saved, wanted.scope, ScopesForLogin(auth, call), ScopesForLookup(auth, configured, call),
      OptionWords(call.scope));
  }

  lemma SplitOfWords(auth: map<string, string>, scope: Option<string>, audience: Option<string>, own: seq<string>)
    requires own == OptionWords(ConfiguredFor(auth, audience)) && own + OptionWords(scope) != []
    ensures ScopeWords(Some(ScopesToRequest(auth, scope, audience))) == Dedupe(own + OptionWords(scope))
  {
    SplitToRequest(auth, scope, audience);
    var words := own + OptionWords(scope);
    assert words[0] in words;
    assert words[0] in Dedupe(words);
  }

  /** A stored scope is not empty, so it has words. */
  lemma SavedScopeHasWords(auth: map<string, string>, call: Params)
    ensures ScopesToRequest(auth, call.scope, call.audience) == ""
      || ScopesForLogin(auth, call) + OptionWords(call.scope) != []
  {
    WordsToRequest(auth, call.scope, call.audience);
    var words := ScopesForLogin(auth, call) + OptionWords(call.scope);
    assert words == [] ==> Dedupe(words) == [];
  }

  lemma ServesByWords(
      clientId: string, saved: SlotName, wanted: string, own: seq<string>, configured: seq<string>, named: seq<string>)
    requires FromKey(ToKey(TokenKey(clientId, saved.audience, saved.scope)))
      == TokenKey(clientId, saved.audience, saved.scope)
    requires saved.scope != "" && ScopeWords(Some(saved.scope)) == Dedupe(own + named)
    requires ScopeWords(Some(wanted)) == Dedupe(configured + named)
    ensures Serves(ToKey(TokenKey(clientId, saved.audience, saved.scope)), TokenKey(clientId, saved.audience, wanted))
      <==> forall w :: w in configured ==> w in own || w in named
  {
    forall w | w in configured
      ensures w in Dedupe(configured + named)
    {
      assert w in configured + named;
    }
  }

  /**
   * An input on which it is not: the client is configured for an audience with a scope of its own, and
   * logs in without naming the audience. The entry has the default scopes, the request wants more.
   */
  lemma LoginMissesConfiguredScope(clientId: string, api: string, base: string, extra: string)
    requires Word(base) && Word(extra) && base != extra && api != "" && api != DEFAULT_AUDIENCE
    requires Representable(TokenKey(clientId, api, base))
    ensures var auth := map[DEFAULT_AUDIENCE := base, api := base + " " + extra];
            var saved := SavedByLogin(auth, Some(api), Params(None, None));
            var wanted := LookedUp(auth, Some(api), Params(None, None));
            && saved == SlotName(api, base) && wanted == SlotName(api, base + " " + extra)
            && !Serves(ToKey(TokenKey(clientId, api, saved.scope)), TokenKey(clientId, api, wanted.scope))
  {
    var auth := map[DEFAULT_AUDIENCE := base, api := base + " " + extra];
    var call := Params(None, None);
    WordsOfWord(base);
    WordsOfWord(extra);
    WordsOfJoined(base, ' ', extra);
    assert base + [' '] + extra == base + " " + extra;
    assert ConfiguredFor(auth, None) == Some(base) && ConfiguredFor(auth, Some(api)) == Some(base + " " + extra);
    NormalisedAlready(auth, None, [base], base);
    NormalisedAlready(auth, Some(api), [base, extra], base + " " + extra);
    LoginServesLookupExactly(clientId, auth, Some(api), call);
    assert extra in ScopesForLookup(auth, Some(api), call) && extra !in ScopesForLogin(auth, call);
  }

  lemma NormalisedAlready(auth: map<string, string>, audience: Option<string>, ws: seq<string>, joined: string)
    requires ConfiguredFor(auth, audience) == Some(joined) && Words(joined) == ws && Distinct(ws)
    requires Join(ws, " ") == joined
    ensures ScopesToRequest(auth, None, audience) == joined
  {
    WordsToRequest(auth, None, audience);
    assert ws + [] == ws;
    DedupeOfDistinct(ws);
  }
}
