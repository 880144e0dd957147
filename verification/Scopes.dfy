/** Scope strings: normalisation, the scopes a request is made with, and the checks around a refresh. */
module Scopes {
  import opened Prelude
  import opened Text

  const DEFAULT_AUDIENCE := "default"
  const ONLINE_ACCESS_SCOPE := "online_access"

  /** The characters of `\s`, which are also those `trim` removes. */
  predicate IsSpace(c: char) {
    || '\t' <= c <= '\r' || c == ' ' || c == '\U{00A0}' || c == '\U{1680}' || '\U{2000}' <= c <= '\U{200A}'
    || c == '\U{2028}' || c == '\U{2029}' || c == '\U{202F}' || c == '\U{205F}' || c == '\U{3000}' || c == '\U{FEFF}'
  }

  function TrimStart(s: string): (r: string)
    ensures r == "" || !IsSpace(r[0])
    ensures |r| <= |s|
  {
    if s != "" && IsSpace(s[0]) then TrimStart(s[1..]) else s
  }

  function TrimEnd(s: string): (r: string)
    ensures r <= s
    ensures r == "" || !IsSpace(r[|r| - 1])
  {
    if s != "" && IsSpace(s[|s| - 1]) then TrimEnd(s[..|s| - 1]) else s
  }

  /** `s.split(/\s+/)`: a run of spaces is one separator. */
  function SplitRuns(s: string): (r: seq<string>)
    ensures |r| >= 1
    decreases |s|
  {
    if s == "" then [""]
    else if IsSpace(s[0]) then [""] + SplitRuns(TrimStart(s[1..]))
    else
      var rest := SplitRuns(s[1..]);
      [[s[0]] + rest[0]] + rest[1..]
  }

  /** `.filter(Boolean)`. */
  function Present(scopes: seq<Option<string>>): seq<string> {
    if scopes == [] then []
    else (if Truthy(scopes[0]) then [scopes[0].value] else []) + Present(scopes[1..])
  }

  function UniqueScopes(scopes: seq<Option<string>>): string {
    Join(Dedupe(SplitRuns(TrimEnd(TrimStart(Join(Present(scopes), " "))))), " ")
  }

  // ---------------------------------------------------- what normalisation means

  /** The words of a scope string: its maximal runs of characters that are not spaces. */
  function Words(s: string): (r: seq<string>)
    ensures s != "" && !IsSpace(s[0]) ==> r != []
    decreases |s|
  {
    if s == "" then []
    else if IsSpace(s[0]) then Words(s[1..])
    else
      var rest := Words(s[1..]);
      if s[1..] == "" || IsSpace(s[1]) then [[s[0]]] + rest else [[s[0]] + rest[0]] + rest[1..]
  }

  predicate Word(w: string) {
    w != "" && forall c :: c in w ==> !IsSpace(c)
  }

  function AllWords(scopes: seq<Option<string>>): seq<string> {
    if scopes == [] then []
    else (if scopes[0].Some? then Words(scopes[0].value) else []) + AllWords(scopes[1..])
  }

  lemma {:induction false} WordsAreWords(s: string)
    ensures forall w :: w in Words(s) ==> Word(w)
    decreases |s|
  {
    if s != "" {
      WordsAreWords(s[1..]);
      if !IsSpace(s[0]) && !(s[1..] == "" || IsSpace(s[1])) {
        var rest := Words(s[1..]);
        assert rest[0] in rest;
        assert forall w :: w in Words(s) ==> w == [s[0]] + rest[0] || w in rest;
      }
    }
  }

  lemma PrependToFirst(c: char, xs: seq<string>, ys: seq<string>, space: bool)
    requires !space ==> xs != []
    ensures (if space then [[c]] + (xs + ys) else [[c] + (xs + ys)[0]] + (xs + ys)[1..])
         == (if space then [[c]] + xs else [[c] + xs[0]] + xs[1..]) + ys
  {
  }

  lemma {:induction false} WordsOfJoined(a: string, c: char, b: string)
    requires IsSpace(c)
    ensures Words(a + [c] + b) == Words(a) + Words(b)
    decreases |a|
  {
    var s := a + [c] + b;
    if a == "" {
      assert s[1..] == b && s[0] == c;
    } else {
      WordsOfJoined(a[1..], c, b);
      assert s[1..] == a[1..] + [c] + b && s[0] == a[0];
      if !IsSpace(a[0]) {
        if |a| == 1 {
          assert s[1] == c && Words(a[1..]) == [];
          assert Words(a) == [[a[0]]] + [];
        } else {
          assert s[1] == a[1];
          PrependToFirst(a[0], Words(a[1..]), Words(b), IsSpace(a[1]));
        }
      }
    }
  }

  lemma {:induction false} WordsOfWord(w: string)
    requires Word(w)
    ensures Words(w) == [w]
    decreases |w|
  {
    assert w[0] in w;
    if |w| > 1 {
      assert forall c :: c in w[1..] ==> c in w;
      WordsOfWord(w[1..]);
      assert w[1] in w;
      assert w == [w[0]] + w[1..];
    } else {
      assert w[1..] == "" && w == [w[0]];
    }
  }

  lemma {:induction false} WordsOfJoin(ws: seq<string>)
    requires forall w :: w in ws ==> Word(w)
    ensures Words(Join(ws, " ")) == ws
  {
    if |ws| == 1 {
      assert ws[0] in ws;
      WordsOfWord(ws[0]);
    } else if |ws| > 1 {
      assert ws[0] in ws;
      WordsOfWord(ws[0]);
      WordsOfJoin(ws[1..]);
      WordsOfJoined(ws[0], ' ', Join(ws[1..], " "));
    }
  }

  lemma {:induction false} WordsOfPresent(scopes: seq<Option<string>>)
    ensures Words(Join(Present(scopes), " ")) == AllWords(scopes)
  {
    if scopes != [] {
      var rest := Present(scopes[1..]);
      WordsOfPresent(scopes[1..]);
      if Truthy(scopes[0]) {
        var head := scopes[0].value;
        if rest == [] {
          assert Present(scopes) == [head];
        } else {
          assert Present(scopes) == [head] + rest;
          JoinCons(head, rest, " ");
          WordsOfJoined(head, ' ', Join(rest, " "));
        }
      } else {
        assert Present(scopes) == rest;
      }
    }
  }

  lemma {:induction false} TrimStartKeepsWords(s: string)
    ensures Words(TrimStart(s)) == Words(s)
    decreases |s|
  {
    if s != "" && IsSpace(s[0]) {
      TrimStartKeepsWords(s[1..]);
    }
  }

  lemma {:induction false} TrimEndKeepsWords(s: string)
    ensures Words(TrimEnd(s)) == Words(s)
    ensures s != "" && !IsSpace(s[0]) ==> TrimEnd(s) != "" && TrimEnd(s)[0] == s[0]
    decreases |s|
  {
    if s != "" && IsSpace(s[|s| - 1]) {
      var front, last := s[..|s| - 1], s[|s| - 1];
      TrimEndKeepsWords(front);
      WordsOfJoined(front, last, "");
      assert s == front + [last] + "";
    }
  }

  /** On a string without space at its end the split gives the words, after an empty part for a leading run. */
  lemma {:induction false} SplitRunsGivesWords(s: string)
    requires s != "" && !IsSpace(s[|s| - 1])
    ensures SplitRuns(s) == (if IsSpace(s[0]) then [""] else []) + Words(s)
    decreases |s|
  {
    if |s| == 1 {
      assert s[1..] == "" && SplitRuns("") == [""] && [s[0]] + "" == [s[0]];
      assert SplitRuns(s) == [[s[0]]] && Words(s) == [[s[0]]];
    } else if IsSpace(s[0]) {
      var t := TrimStart(s[1..]);
      TrimStartIsSuffix(s[1..]);
      TrimStartKeepsWords(s[1..]);
      SplitRunsGivesWords(t);
    } else {
      var rest := s[1..];
      SplitRunsGivesWords(rest);
      assert s[1] == rest[0];
      if IsSpace(s[1]) {
        assert SplitRuns(rest)[1..] == Words(rest) && [s[0]] + "" == [s[0]];
      } else {
        assert [] + Words(rest) == Words(rest);
      }
    }
  }

  lemma {:induction false} TrimStartIsSuffix(s: string)
    requires s != "" && !IsSpace(s[|s| - 1])
    ensures TrimStart(s) != "" && TrimStart(s)[|TrimStart(s)| - 1] == s[|s| - 1]
    decreases |s|
  {
    if IsSpace(s[0]) {
      TrimStartIsSuffix(s[1..]);
    }
  }

  /** Normalisation keeps the first occurrence of every word, in order, single-spaced. */
  lemma UniqueScopesAreWords(scopes: seq<Option<string>>)
    ensures UniqueScopes(scopes) == Join(Dedupe(AllWords(scopes)), " ")
    ensures Words(UniqueScopes(scopes)) == Dedupe(AllWords(scopes))
  {
    var joined := Join(Present(scopes), " ");
    var start := TrimStart(joined);
    var t := TrimEnd(start);
    WordsOfPresent(scopes);
    TrimStartKeepsWords(joined);
    TrimEndKeepsWords(start);
    if t != "" {
      SplitRunsGivesWords(t);
      assert SplitRuns(t) == Words(t);
    } else {
      assert Dedupe([""]) == [""];
    }
    WordsAreWords(joined);
    WordsOfJoin(Dedupe(AllWords(scopes)));
  }

  lemma {:induction false} AllWordsOfConcat(xs: seq<Option<string>>, ys: seq<Option<string>>)
    ensures AllWords(xs + ys) == AllWords(xs) + AllWords(ys)
  {
    if xs == [] {
      assert xs + ys == ys;
    } else {
      AllWordsOfConcat(xs[1..], ys);
      assert (xs + ys)[1..] == xs[1..] + ys;
    }
  }

  /** `g(g(a, ..), b, ..) == g(a, .., b, ..)`: scopes may be accumulated in stages. */
  lemma UniqueScopesInStages(xs: seq<Option<string>>, ys: seq<Option<string>>)
    ensures UniqueScopes([Some(UniqueScopes(xs))] + ys) == UniqueScopes(xs + ys)
  {
    UniqueScopesAreWords(xs);
    UniqueScopesAreWords(xs + ys);
    UniqueScopesAreWords([Some(UniqueScopes(xs))] + ys);
    AllWordsOfConcat(xs, ys);
    AllWordsOfConcat([Some(UniqueScopes(xs))], ys);
    assert AllWords([Some(UniqueScopes(xs))]) == Dedupe(AllWords(xs));
    DedupeAbsorbsLeft(AllWords(xs), AllWords(ys));
  }

  // --------------------------------------------------------- scopes of a client

  /** The `scope` option of a client: one string for all audiences, or one per audience. */
  datatype ScopeOption = ForAll(scope: Option<string>) | PerAudience(scopes: map<string, string>)

  function Base(openid: string, extra: seq<string>): seq<Option<string>> {
    [Some(openid)] + seq(|extra|, i requires 0 <= i < |extra| => Some(extra[i]))
  }

  function WithConfigured(openid: string, configured: Option<string>, extra: seq<string>): seq<Option<string>> {
    [Some(openid), configured] + seq(|extra|, i requires 0 <= i < |extra| => Some(extra[i]))
  }

  function ForAudience(option: ScopeOption, a: string, openid: string, extra: seq<string>): string
    requires option.PerAudience? && a in option.scopes
  {
    UniqueScopes(WithConfigured(openid, Some(option.scopes[a]), extra))
  }

  /** Every configured audience has its scopes with the base ones; the default audience always exists. */
  ghost predicate IsInjected(option: ScopeOption, openid: string, extra: seq<string>, requested: map<string, string>) {
    if option.ForAll? then
      requested == map[DEFAULT_AUDIENCE := UniqueScopes(WithConfigured(openid, option.scope, extra))]
    else
      && requested.Keys == {DEFAULT_AUDIENCE} + option.scopes.Keys
      && (forall a :: a in option.scopes ==> requested[a] == ForAudience(option, a, openid, extra))
      && (DEFAULT_AUDIENCE !in option.scopes ==> requested[DEFAULT_AUDIENCE] == UniqueScopes(Base(openid, extra)))
  }

  /** Fills the default audience, then every configured audience, in any order of the keys. */
  method InjectDefaultScopes(
      option: ScopeOption, openid: string, extra: seq<string>)
    returns (requested: map<string, string>)
    ensures IsInjected(option, openid, extra, requested)
  {
    if option.ForAll? {
      return map[DEFAULT_AUDIENCE := UniqueScopes(WithConfigured(openid, option.scope, extra))];
    }
    requested := map[DEFAULT_AUDIENCE := UniqueScopes(Base(openid, extra))];
    var keys := option.scopes.Keys;
    while keys != {}
      invariant keys <= option.scopes.Keys
      invariant requested.Keys == {DEFAULT_AUDIENCE} + (option.scopes.Keys - keys)
      invariant forall a :: a in option.scopes && a !in keys ==> requested[a] == ForAudience(option, a, openid, extra)
      invariant DEFAULT_AUDIENCE !in option.scopes || DEFAULT_AUDIENCE in keys ==>
        requested[DEFAULT_AUDIENCE] == UniqueScopes(Base(openid, extra))
      decreases |keys|
    {
      var key :| key in keys;
      requested := requested[key := ForAudience(option, key, openid, extra)];
      keys := keys - {key};
    }
  }

  function At(scopes: map<string, string>, audience: string): Option<string> {
    if audience in scopes then Some(scopes[audience]) else None
  }

  /** The scopes of the audience when configured, else the default ones. */
  function ConfiguredFor(authScopes: map<string, string>, audience: Option<string>): Option<string> {
    var own := if Truthy(audience) then At(authScopes, audience.value) else None;
    if Truthy(own) then own else At(authScopes, DEFAULT_AUDIENCE)
  }

  function ScopesToRequest(
      authScopes: map<string, string>, methodScopes: Option<string>, audience: Option<string>): string {
    UniqueScopes([ConfiguredFor(authScopes, audience), methodScopes])
  }

  function OptionWords(s: Option<string>): seq<string> {
    if s.Some? then Words(s.value) else []
  }

  lemma WordsToRequest(authScopes: map<string, string>, methodScopes: Option<string>, audience: Option<string>)
    ensures ScopesToRequest(authScopes, methodScopes, audience)
         == Join(Dedupe(OptionWords(ConfiguredFor(authScopes, audience)) + OptionWords(methodScopes)), " ")
    ensures Words(ScopesToRequest(authScopes, methodScopes, audience))
         == Dedupe(OptionWords(ConfiguredFor(authScopes, audience)) + OptionWords(methodScopes))
  {
    var scopes := [ConfiguredFor(authScopes, audience), methodScopes];
    UniqueScopesAreWords(scopes);
    assert scopes[1..] == [methodScopes] && scopes[1..][1..] == [];
    assert AllWords(scopes[1..]) == OptionWords(methodScopes) + [];
    assert AllWords(scopes) == OptionWords(ConfiguredFor(authScopes, audience)) + OptionWords(methodScopes);
  }

  lemma RepeatedPrefix<T(!new)>(c: seq<T>, m: seq<T>)
    ensures Dedupe(c + Dedupe(c + m)) == Dedupe(c + m)
  {
    DedupeAbsorbsRight(c, c + m);
    assert c + (c + m) == (c + c) + m;
    DedupeIgnoresRepeats(c, c);
    DedupeAbsorbsLeft(c + c, m);
    DedupeAbsorbsLeft(c, m);
  }

  /**
   * Computing the scopes to request from scopes already computed for the same audience changes
   * nothing, not even their order. `LoginScopes` says which logins save under the looked-up key.
   */
  lemma ScopesToRequestIsStable(authScopes: map<string, string>, methodScopes: Option<string>, audience: Option<string>)
    ensures var requested := ScopesToRequest(authScopes, methodScopes, audience);
            ScopesToRequest(authScopes, Some(requested), audience) == requested
  {
    WordsToRequest(authScopes, methodScopes, audience);
    WordsToRequest(authScopes, Some(ScopesToRequest(authScopes, methodScopes, audience)), audience);
    RepeatedPrefix(OptionWords(ConfiguredFor(authScopes, audience)), OptionWords(methodScopes));
  }

  /** Whatever the configuration, a request carries the openid scope, the extra scopes and its own scopes. */
  lemma RequestsCarryBaseScopes(option: ScopeOption, openid: string, extra: seq<string>, auth: map<string, string>,
                                methodScopes: Option<string>, audience: Option<string>)
    requires Words(openid) != [] && IsInjected(option, openid, extra, auth)
    ensures var requested := ScopesToRequest(auth, methodScopes, audience);
            Carries(requested, openid, extra) && forall w :: w in OptionWords(methodScopes) ==> w in Words(requested)
  {
    WordsToRequest(auth, methodScopes, audience);
    var source := if Truthy(audience) && Truthy(At(auth, audience.value)) then audience.value else DEFAULT_AUDIENCE;
    assert DEFAULT_AUDIENCE in auth;
    InjectedCarries(option, openid, extra, auth, source);
    assert ConfiguredFor(auth, audience) == Some(auth[source]);
    CarriesOver(ConfiguredFor(auth, audience).value, ScopesToRequest(auth, methodScopes, audience), openid, extra);
  }

  lemma ConfiguredCarries(openid: string, configured: Option<string>, extra: seq<string>, scope: string)
    requires Words(openid) != [] && scope == UniqueScopes(WithConfigured(openid, configured, extra))
    ensures Carries(scope, openid, extra)
  {
    ListsAreShaped(openid, configured, extra);
    ListCarries(WithConfigured(openid, configured, extra), openid, extra, 2);
  }

  /** A list that starts with the openid scopes and ends with the extra ones. */
  ghost predicate Shaped(scopes: seq<Option<string>>, openid: string, extra: seq<string>, offset: nat) {
    && 0 < offset && |scopes| == offset + |extra| && scopes[0] == Some(openid)
    && forall i :: 0 <= i < |extra| ==> scopes[offset + i] == Some(extra[i])
  }

  lemma ListsAreShaped(openid: string, configured: Option<string>, extra: seq<string>)
    ensures Shaped(Base(openid, extra), openid, extra, 1)
    ensures Shaped(WithConfigured(openid, configured, extra), openid, extra, 2)
  {
  }

  lemma BaseCarries(openid: string, extra: seq<string>, scope: string)
    requires Words(openid) != [] && scope == UniqueScopes(Base(openid, extra))
    ensures Carries(scope, openid, extra)
  {
    ListsAreShaped(openid, None, extra);
    ListCarries(Base(openid, extra), openid, extra, 1);
  }

  lemma InjectedCarries(option: ScopeOption, openid: string, extra: seq<string>, auth: map<string, string>, a: string)
    requires Words(openid) != [] && IsInjected(option, openid, extra, auth) && a in auth
    ensures Carries(auth[a], openid, extra)
  {
    match option
    case ForAll(scope) => ConfiguredCarries(openid, scope, extra, auth[a]);
    case PerAudience(scopes) =>
      if a in scopes {
        ConfiguredCarries(openid, Some(scopes[a]), extra, auth[a]);
      } else {
        BaseCarries(openid, extra, auth[a]);
      }
  }

  lemma CarriesOver(scope: string, wider: string, openid: string, extra: seq<string>)
    requires Carries(scope, openid, extra) && forall w :: w in Words(scope) ==> w in Words(wider)
    ensures Carries(wider, openid, extra)
  {
  }

  ghost predicate Carries(scope: string, openid: string, extra: seq<string>) {
    && (forall w :: w in Words(openid) ==> w in Words(scope))
    && (forall i, w :: 0 <= i < |extra| && w in Words(extra[i]) ==> w in Words(scope))
  }

  lemma {:induction false} ElementWords(scopes: seq<Option<string>>, i: nat)
    requires i < |scopes| && scopes[i].Some?
    ensures forall w :: w in Words(scopes[i].value) ==> w in AllWords(scopes)
    decreases i
  {
    if i > 0 {
      ElementWords(scopes[1..], i - 1);
    }
  }

  lemma ListCarries(scopes: seq<Option<string>>, openid: string, extra: seq<string>, offset: nat)
    requires Words(openid) != [] && Shaped(scopes, openid, extra, offset)
    ensures Carries(UniqueScopes(scopes), openid, extra) && UniqueScopes(scopes) != ""
  {
    UniqueScopesAreWords(scopes);
    ElementWords(scopes, 0);
    assert Words(openid)[0] in Words(openid);
    forall i | 0 <= i < |extra|
      ensures forall w :: w in Words(extra[i]) ==> w in AllWords(scopes)
    {
      assert scopes[offset + i] == Some(extra[i]);
      ElementWords(scopes, offset + i);
    }
  }

  // ------------------------------------------------------------- around a refresh

  function Listed(scope: Option<string>): seq<string> {
    if scope.Some? then Split(scope.value, " ") else []
  }

  predicate AllScopesAreIncluded(scopeToInclude: Option<string>, scopes: Option<string>) {
    forall s :: s in Listed(scopeToInclude) ==> s in Listed(scopes)
  }

  /** The scope sent with a refresh: the cached one rather than fewer scopes for the same audience. */
  function GetScopeToRequest(
      useMrrt: bool, audience: Option<string>, scope: string, cachedAudience: Option<string>,
      cachedScope: Option<string>): string {
    if useMrrt && Truthy(cachedAudience) && Truthy(cachedScope) then
      if audience != cachedAudience then scope
      else
        var cached, wanted := Split(cachedScope.value, " "), Split(scope, " ");
        if |cached| >= |wanted| && (forall s :: s in wanted ==> s in cached) then cachedScope.value else scope
    else scope
  }

  predicate IsRefreshWithMrrt(
      cachedAudience: Option<string>, cachedScope: Option<string>, audience: Option<string>, scope: string) {
    cachedAudience != audience || !AllScopesAreIncluded(Some(scope), cachedScope)
  }

  function Without(scopes: seq<string>, drop: seq<string>): seq<string> {
    if scopes == [] then []
    else (if scopes[0] in drop then [] else [scopes[0]]) + Without(scopes[1..], drop)
  }

  function MissingList(requested: Option<string>, responded: Option<string>, onlineAccess: bool): seq<string> {
    var asked := if onlineAccess then Without(Listed(requested), [ONLINE_ACCESS_SCOPE]) else Listed(requested);
    Without(asked, Listed(responded))
  }

  function GetMissingScopes(requested: Option<string>, responded: Option<string>, onlineAccess: bool): string {
    Join(MissingList(requested, responded, onlineAccess), ",")
  }

  /** The scope sent never covers less than what was requested. */
  lemma RefreshNeverDownscopes(
      useMrrt: bool, audience: Option<string>, scope: string, cachedAudience: Option<string>,
      cachedScope: Option<string>)
    ensures forall s :: s in Split(scope, " ") ==>
              s in Split(GetScopeToRequest(useMrrt, audience, scope, cachedAudience, cachedScope), " ")
  {
  }

  /**
   * Two functions decide separately whether a refresh stays within the cached token. They agree
   * exactly when the request, if it is within the cached scopes, lists no more of them.
   */
  lemma RefreshChecksAgreeExactly(
      audience: Option<string>, scope: string, cachedAudience: Option<string>, cachedScope: Option<string>)
    requires Truthy(cachedAudience) && Truthy(cachedScope) && scope != cachedScope.value
    ensures GetScopeToRequest(true, audience, scope, cachedAudience, cachedScope)
              == (if IsRefreshWithMrrt(cachedAudience, cachedScope, audience, scope) then scope else cachedScope.value)
        <==> (IsRefreshWithMrrt(cachedAudience, cachedScope, audience, scope)
              || |Split(scope, " ")| <= |Split(cachedScope.value, " ")|)
  {
    assert Listed(Some(scope)) == Split(scope, " ") && Listed(cachedScope) == Split(cachedScope.value, " ");
  }

  /** Pigeonhole: for a request without repeats the length test never decides, so the checks agree. */
  lemma RefreshChecksAgree(
      audience: Option<string>, scope: string, cachedAudience: Option<string>, cachedScope: Option<string>)
    requires Truthy(cachedAudience) && Truthy(cachedScope) && Distinct(Split(scope, " "))
    ensures GetScopeToRequest(true, audience, scope, cachedAudience, cachedScope)
         == if IsRefreshWithMrrt(cachedAudience, cachedScope, audience, scope) then scope else cachedScope.value
  {
    if !IsRefreshWithMrrt(cachedAudience, cachedScope, audience, scope) {
      assert Listed(Some(scope)) == Split(scope, " ") && Listed(cachedScope) == Split(cachedScope.value, " ");
      DistinctSubsetIsShorter(Split(scope, " "), Split(cachedScope.value, " "));
    }
  }

  /** A repeated scope is enough to make them disagree. */
  lemma RepeatedScopeDisagrees()
    ensures !IsRefreshWithMrrt(Some("api"), Some("a"), Some("api"), "a a")
            && GetScopeToRequest(true, Some("api"), "a a", Some("api"), Some("a")) == "a a"
  {
    var a := "a";
    CleanForOneChar(a, ' ');
    SplitOfCleanJoin([a], " ");
    SplitOfCleanJoin([a, a], " ");
    JoinCons(a, [a], " ");
    assert [a] + [a] == [a, a] && a + " " + a == "a a";
  }

  /** Every scope string the client computes lists no scope twice, so its refresh checks always agree. */
  lemma RequestedScopesAreDistinct(
      authScopes: map<string, string>, methodScopes: Option<string>, audience: Option<string>)
    ensures Distinct(Split(ScopesToRequest(authScopes, methodScopes, audience), " "))
  {
    DedupeIsDistinct(OptionWords(ConfiguredFor(authScopes, audience)) + OptionWords(methodScopes));
    SplitToRequest(authScopes, methodScopes, audience);
  }

  /** Cut at single spaces, a computed scope string gives its words again. */
  lemma SplitToRequest(authScopes: map<string, string>, methodScopes: Option<string>, audience: Option<string>)
    ensures var words := Dedupe(OptionWords(ConfiguredFor(authScopes, audience)) + OptionWords(methodScopes));
            Split(ScopesToRequest(authScopes, methodScopes, audience), " ") == if words == [] then [""] else words
  {
    var words := Dedupe(OptionWords(ConfiguredFor(authScopes, audience)) + OptionWords(methodScopes));
    WordsToRequest(authScopes, methodScopes, audience);
    if words != [] {
      forall w | w in words
        ensures Word(w) && Clean(w, " ") && Free(w, " ")
      {
        WordsAreWords(ScopesToRequest(authScopes, methodScopes, audience));
        CleanForOneChar(w, ' ');
      }
      SplitOfCleanJoin(words, " ");
    }
  }

  lemma {:induction false} WithoutEffect(scopes: seq<string>, drop: seq<string>)
    ensures forall s :: s in Without(scopes, drop) <==> s in scopes && s !in drop
  {
    if scopes != [] {
      WithoutEffect(scopes[1..], drop);
      assert scopes == [scopes[0]] + scopes[1..];
    }
  }

  lemma {:induction false} PartsHaveNoOther(s: string, sep: string, c: char)
    requires sep != "" && c !in s
    ensures forall part :: part in Split(s, sep) ==> c !in part
    decreases |s|
  {
    if s != "" {
      PartsHaveNoOther(if sep <= s then s[|sep|..] else s[1..], sep, c);
    }
  }

  /** The scopes reported missing, when none contains a comma: those asked for that did not come back. */
  lemma MissingAreNamed(requested: string, responded: Option<string>, onlineAccess: bool)
    requires ',' !in requested && GetMissingScopes(Some(requested), responded, onlineAccess) != ""
    ensures forall s :: s in Split(GetMissingScopes(Some(requested), responded, onlineAccess), ",")
              <==> s in Split(requested, " ") && !(onlineAccess && s == "online_access") && s !in Listed(responded)
  {
    var asked := Listed(Some(requested));
    var missing := MissingList(Some(requested), responded, onlineAccess);
    WithoutEffect(asked, [ONLINE_ACCESS_SCOPE]);
    WithoutEffect(if onlineAccess then Without(asked, [ONLINE_ACCESS_SCOPE]) else asked, Listed(responded));
    PartsHaveNoOther(requested, " ", ',');
    forall s | s in missing
      ensures Clean(s, ",") && Free(s, ",")
    {
      CleanForOneChar(s, ',');
    }
    SplitOfCleanJoin(missing, ",");
  }

  /** Nothing is reported missing exactly when every scope asked for, less `online_access` in online mode, came back. */
  lemma NothingMissingMeansCovered(requested: string, responded: Option<string>, onlineAccess: bool)
    requires "" !in Split(requested, " ")
    ensures GetMissingScopes(Some(requested), responded, onlineAccess) == ""
       <==> forall s :: s in Split(requested, " ") && !(onlineAccess && s == ONLINE_ACCESS_SCOPE) ==>
         s in Listed(responded)
  {
    var asked := Listed(Some(requested));
    WithoutEffect(asked, [ONLINE_ACCESS_SCOPE]);
    WithoutEffect(if onlineAccess then Without(asked, [ONLINE_ACCESS_SCOPE]) else asked, Listed(responded));
    var missing := MissingList(Some(requested), responded, onlineAccess);
    if missing != [] {
      assert missing[0] in missing && missing[0] != "";
      assert Join(missing, ",") != "";
    }
  }
}
