# Verified model of the token store of auth0-spa-js

This project models the parts of auth0-spa-js that hold tokens and the protocols that run over them,
and proves properties of all their runs.

* **Token cache** (`TokenStore`, `CacheManagers`): an insertion-ordered store of token, id token and
  manifest entries with scope-superset lookup, expiry that strips or removes, refresh-token rotation and
  revocation. `CacheManagers` keeps the source's objects: entries are live bodies on the heap, handed out by
  reference and rewritten in place, and each method is proved equal to a function of `TokenStore`.
  `CacheKeys` and `Text` hold the key codec, `StoreInvariants` and `IndexRefinement` the invariants of the
  side index, `DanglingKeys` the inputs on which lookups, strips and clears go astray, `RotationConvergence`
  the interleavings of grants.
* **Client** (`Auth0Clients`, specified by `ClientSession`): ceiling checks, saving, refreshing, rollback and
  revocation as the client class performs them on token endpoint replies that may be anything. Every grant is
  cut at its request: what precedes it and what follows its reply are separate steps, and a refresh keeps
  the live body it looked up. `TokenReads` and `RefreshOutcomes` say exactly what the client answers and stores.
  `SessionSafety`, `SessionRuns`, `UpscopeRollback` and `Revocation` prove what
  every run keeps, `SessionOverlap` what replies do that arrive after another login or a logout,
  `RevocationRuns` what a revocation achieves among other operations, and `TokenLifetime` how long a saved
  token is found. `Locking` and `SinglePromise` model how concurrent calls share work; `SilentTokens` joins
  the lock protocol to the cache, and `SilentRun` is such a run.
* **Token worker** (`TokenWorker`, `WorkerRuns`): the second refresh-token store, whose handlers are cut at
  the fetch, so that starts, completions, revocations and clears interleave freely.
* **Small stateful clients**: anonymous sessions (`AnonymousSession`, `AnonymousClients`), interrupted passkey
  signup (`PasskeySignup`) and the MFA context map (`MfaContexts`).
* **Codecs and scope algebra** (`Scopes`, `LoginScopes`, `Base64Url`).

Classes carry the mutable state; every state-changing method is tied by its `ensures` to a function on values,
and the lemmas of the other modules are about those functions. In run theorems a run is a sequence of events;
suspended calls are cut at their awaits, and events of different calls may come in any order.

## Where the code and its promises part

Each of these is a lemma with the input or the exact condition.

* Two users' tokens can end up together: a refresh whose reply arrives after another user's login replaces the
  id token and saves its entry beside the other user's (`SessionOverlap.TwoUsersMeet`, a run from the empty
  session; exact condition in `SessionOverlap.ReplyKeepsOneUserExactly`).
* A reply that arrives after a logout logs the client in again (exact condition in
  `SessionOverlap.LogoutIsUndoneExactly`).
* A refused upscope loses the default audience's own entry when the audience is left implicit
  (`UpscopeRollback.ImplicitAudienceLosesEntry`): the cached audience is `default`, the requested one undefined.
  Exactly when an entry is lost is in `UpscopeRollback.RefusedRefreshKeepsTheRest`.
* A key left in the manifest by `CacheManager.remove` hides a valid entry further down, so a cache with a
  manifest misses what one with `allKeys` finds (`DanglingKeys.RemoveMakesReadMiss`, a run of four operations;
  `StoreInvariants.DanglingKeyShadows`; exact condition for any lookup in `StoreInvariants.GrantedExactly`).
  Every refused upscope leaves such a key (`UpscopeRollback.RefusalLeavesDanglingKey`).
* A scope containing `::` makes the expiry strip write a second entry (`DanglingKeys.SeparatorDoublesEntry`,
  `StoreInvariants.SeparatorInScopeLeavesGhost`; exact condition in `StoreInvariants.LookupAddsKeyExactly`).
* A login that leaves the audience to the configuration saves under the default scopes, and the token request
  that follows, with the same parameters, wants those of the audience (`LoginScopes.LoginMissesConfiguredScope`;
  exact condition in `LoginScopes.LoginServesLookupExactly`).
* Clearing with an id that not every entry concerns leaves entries the manifest no longer lists
  (`DanglingKeys.ClearForOtherLeavesUnlisted`; exact condition in `StoreInvariants.ClearKeepsInvExactly`).
* Clearing matches the id by string inclusion, so it also clears another client whose id, or any key of which,
  contains it (`DanglingKeys.ClearReachesApp2`; `StoreInvariants.ClearEffect` says exactly what goes).
* A revocation whose requests were all accepted leaves its audience with a refresh token that a reply brought
  after the tokens were captured (`RevocationRuns.ReplyOutrunsRevocation`; exact condition at each answer in
  `RevocationRuns.AnswerClearsExactly`).
* A request that repeats a scope makes the two refresh checks disagree (`Scopes.RepeatedScopeDisagrees`; exact
  condition in `Scopes.RefreshChecksAgreeExactly`).
* A second `createSession` for another slot mixes two anonymous identities
  (`AnonymousSession.SecondCreateMixesIdentities`; exact conditions in
  `AnonymousSession.CreateKeepsIdentityExactly` and, for a new identity, `AnonymousSession.NewIdentityIsKeptExactly`).
* A signup restarted during a passkey prompt can lose its new pending session to the old one
  (`PasskeySignup.StaleRestoreDropsNewSignup`; exact condition in `PasskeySignup.LostExactly`).
* With a clock that goes back, the cleanup of the MFA contexts becomes visible
  (`MfaContexts.BackwardClockShowsCleanup`; exact condition in `MfaContexts.CleanupShowsExactly`).

## Model

| member | source | states |
|---|---|---|
| Text.SplitInvertsJoinExactly | src/cache/shared.ts:31-46 | `join` then `split` is lossless exactly for non-empty lists of parts in which the separator is found only where it was put |
| CacheKeys.FromKeyInvertsToKeyExactly | src/cache/shared.ts:31-46 | `fromKey(toKey(k)) = k` if and only if the fields are filled without gap, non-empty and clean of the separator |
| CacheKeys.ToKeyIsInjective | src/cache/shared.ts:31-35 | two representable keys never share a string |
| CacheKeys.ResolvedKeyIsExact | src/cache/cache-manager.ts:92-118 | going through `fromKey` and back names the stored entry again exactly for keys of at most four parts, none empty |
| CacheKeys.KindsOfKeysAreDisjoint | src/cache/cache-manager.ts:237-277 | id token, manifest and token keys never coincide, for any two clients, and the first two have no scope part, so scope matching skips them |
| CacheManagers.InMemoryCache.Set | src/cache/cache-memory.ts:8-10 | stores the very object under the key, whether or not it is stored under another one too, keeping insertion order and every other slot |
| CacheManagers.InMemoryCache.Remove | src/cache/cache-memory.ts:22-24 | removes one key, leaving order and every other slot |
| CacheManagers.CacheKeyManifest.Get | src/cache/key-manifest.ts:42-44 | the recorded key set, or none when there is no manifest entry |
| CacheManagers.CacheKeyManifest.Add | src/cache/key-manifest.ts:15-25 | the new cache is the old one with the key set rewritten to include the key, nothing else touched |
| CacheManagers.CacheKeyManifest.Remove | src/cache/key-manifest.ts:27-40 | the key leaves the set, and the manifest entry leaves the cache when the set becomes empty |
| CacheManagers.CacheManager.SetIdToken | src/cache/cache-manager.ts:28-39 | the cache afterwards, id token entry and index included |
| CacheManagers.CacheManager.GetIdToken | src/cache/cache-manager.ts:41-68 | the client's id token or the one inside a matching token entry, with the effect of the lookup |
| CacheManagers.CacheManager.Get | src/cache/cache-manager.ts:70-125 | result and cache are those of the lookup function; only the cache object is modified, so no body returned earlier changes |
| CacheManagers.CacheManager.ModifiedCachedEntry | src/cache/cache-manager.ts:127-152 | the stripped entry is a new object stored under the resolved key; the expired body is not mutated |
| CacheManagers.CacheManager.Set | src/cache/cache-manager.ts:154-165 | the entry stored with its expiry, its key noted in the index |
| CacheManagers.CacheManager.Remove | src/cache/cache-manager.ts:167-179 | the entry is gone, the index untouched |
| CacheManagers.CacheManager.StripRefreshToken | src/cache/cache-manager.ts:181-196 | the loop over live bodies deletes the token from exactly the listed entries that hold it |
| CacheManagers.CacheManager.Clear | src/cache/cache-manager.ts:198-212 | every listed key that includes the id is gone, and the manifest entry too |
| CacheManagers.CacheManager.Search | src/cache/cache-manager.ts:86-125 | the part of a lookup after the exact key missed: first matching key, else a lent refresh token |
| CacheManagers.CacheManager.GetEntryWithRefreshToken | src/cache/cache-manager.ts:287-306 | the first entry of the client that holds a refresh token, reduced to refresh token, audience and scope |
| CacheManagers.CacheManager.GetRefreshTokensByAudience | src/cache/cache-manager.ts:319-346 | the distinct refresh tokens of the audience in the order found |
| CacheManagers.CacheManager.UpdateEntry | src/cache/cache-manager.ts:367-388 | the loop over live bodies rewrites exactly the client's refresh tokens that the rotation concerns |
| TokenStore.RotateKeysIsUpdate | src/cache/cache-manager.ts:376-387 | rotating key by key equals rewriting every listed entry at once |
| TokenStore.StripKeysIsStrip | src/cache/cache-manager.ts:189-195 | stripping key by key equals stripping every listed entry at once |
| StoreInvariants.LookupIsSound | src/cache/cache-manager.ts:70-152 | a result with an access token is the body of a stored, unexpired entry of the same client and audience with at least the requested scopes; the lookup adds no key and alters at most that one expired entry |
| StoreInvariants.LookupIsComplete | src/cache/cache-manager.ts:257-277 | if some stored entry answers, all that answer are fresh and no listed key dangles, the lookup returns a token |
| StoreInvariants.FirstServingExactly | src/cache/cache-manager.ts:257-277 | scope matching takes the first listed key that serves the request |
| StoreInvariants.AnswersAreServed | src/cache/cache-manager.ts:257-277 | every entry of the same client and audience with at least the requested scopes, and a scope in its key, serves the request |
| StoreInvariants.ServesExactly | src/cache/cache-manager.ts:108-152 | the stored entry a lookup resolves to is returned as it is while fresh; expired it keeps and returns only refresh token, audience and scope, or goes, with its index entry, if it has no refresh token |
| StoreInvariants.LendsExactly | src/cache/cache-manager.ts:97-102 | a lookup that resolves to nothing stored returns something if and only if multi-resource refresh is on, the server may be asked and a listed entry of the client holds a refresh token: refresh token, audience and scope of the first such entry; the cache is unchanged |
| StoreInvariants.TokenFoundExactly | src/cache/cache-manager.ts:70-125 | which refresh token a lookup finds: that of the entry it resolves to, expired or not, else the first one lent |
| StoreInvariants.GrantedExactly | src/cache/cache-manager.ts:70-125 | for any cache and key list, a lookup returns an access token if and only if the one key it resolves to (its own, else the first listed one that serves it) is stored, unexpired and has one |
| StoreInvariants.DanglingKeyShadows | src/cache/cache-manager.ts:85-108 | a listed key without an entry hides a later one that is stored, fresh and answers the request |
| StoreInvariants.LookupAddsKeyExactly | src/cache/cache-manager.ts:92-118 | a lookup adds a key if and only if it resolves to an expired entry with a refresh token under a key that `fromKey` and `toKey` turn into one not stored; the full entry then stays |
| StoreInvariants.SeparatorInScopeLeavesGhost | src/cache/cache-manager.ts:92-118 | after a lookup that resolves to an expired entry with `::` in its scope, that entry is unchanged and its strip is stored beside it under a shorter scope |
| StoreInvariants.SetKeepsInv | src/cache/cache-manager.ts:154-165 | saving keeps the index complete and every token key restorable |
| StoreInvariants.GetKeepsInv | src/cache/cache-manager.ts:70-125 | so does any lookup, whatever it strips or removes |
| StoreInvariants.UpdateEntryKeepsInv | src/cache/cache-manager.ts:367-388 | a rotation keeps the invariant and the key list |
| StoreInvariants.StripKeepsInv | src/cache/cache-manager.ts:181-196 | a strip keeps the invariant and the key list |
| StoreInvariants.ClearEffect | src/cache/cache-manager.ts:198-212 | exactly the entries that do not concern the id remain, unchanged, and never the manifest |
| StoreInvariants.ClearKeepsInvExactly | src/cache/cache-manager.ts:204-211 | the index stays complete after a clear if and only if no manifest is used or everything stored concerns the id |
| IndexRefinement.StepRefines | src/cache/cache-manager.ts:224-230 | one operation on a manifest-indexed cache mirrors the same operation on a cache that lists its keys |
| IndexRefinement.RunRefines | src/cache/key-manifest.ts:15-48 | so does every sequence of operations without `remove` |
| IndexRefinement.ManifestRefinesAllKeys | src/cache/key-manifest.ts:15-48 | from empty, every sequence of a client's operations other than `remove` returns the same results with a manifest as with `allKeys` |
| IndexRefinement.EverythingStoredStaysListed | src/cache/cache-manager.ts:167-179 | with `remove` allowed, every stored key is still in the manifest after every run |
| DanglingKeys.RemoveMakesThemDiffer | src/cache/cache-manager.ts:167-179 | save, remove, save another entry, look up what both would answer: with `allKeys` the second entry is found, with a manifest nothing is |
| DanglingKeys.RemoveMakesReadMiss | src/cache/cache-manager.ts:85-108 | the same on literal names, from the empty cache |
| DanglingKeys.SeparatorDoublesEntry | src/cache/cache-manager.ts:92-118 | saving an entry with `::` in its scope, letting it expire and looking it up leaves two entries |
| DanglingKeys.ClearReachesLongerId | src/cache/cache-manager.ts:198-207 | with `allKeys`, clearing for one client removes the entry of another whose id begins with its id |
| DanglingKeys.ClearReachesApp2 | src/cache/cache-manager.ts:203-204 | the same on literal names |
| DanglingKeys.ClearLeavesUnlisted | src/cache/cache-manager.ts:203-211 | with a manifest, clearing for an id that the stored key does not include leaves the entry, and no key list |
| DanglingKeys.ClearForOtherLeavesUnlisted | src/cache/cache-manager.ts:203-211 | the same on literal names |
| RotationConvergence.PropagationEffect | src/cache/cache-manager.ts:367-388 | with MRRT exactly the entries that held a refresh token now hold the new one; keys, order, access tokens and entries without refresh token are untouched |
| RotationConvergence.RotationFansOut | src/cache/cache-manager.ts:382-386 | without MRRT exactly the entries that shared the spent token get the new one |
| RotationConvergence.GrantsConverge | src/Auth0Client.ts:1637-1653 | after any interleaving of any number of grants, lookups, refused upscopes and revocations, once every save was propagated all entries with a refresh token hold the last one propagated |
| Scopes.UniqueScopesAreWords | src/scope.ts:17-19 | normalisation yields the first occurrence of every word, in order, single-spaced |
| Scopes.UniqueScopesInStages | src/scope.ts:17-19 | accumulating scopes in stages equals accumulating them at once |
| Scopes.InjectDefaultScopes | src/scope.ts:33-49 | every configured audience gets its scopes with the base ones, the default audience always exists, and no other key does |
| Scopes.RequestsCarryBaseScopes | src/scope.ts:33-74 | for every configuration a request contains the openid scopes, the extra scopes and its own |
| Scopes.ScopesToRequestIsStable | src/Auth0Client.utils.ts:92 | for one and the same audience, computing the scopes from scopes already computed changes nothing |
| Scopes.RequestedScopesAreDistinct | src/scope.ts:62-74 | a computed scope string lists no scope twice |
| Scopes.RefreshNeverDownscopes | src/Auth0Client.utils.ts:185-204 | the scope sent always covers the requested scopes |
| Scopes.RefreshChecksAgree | src/Auth0Client.utils.ts:185-226 | for a request without repeats the cached scope is sent exactly when the refresh does not count as MRRT (a pigeonhole argument) |
| Scopes.RefreshChecksAgreeExactly | src/Auth0Client.utils.ts:196-226 | in general the two checks agree if and only if the request is beyond the cached scopes or lists no more of them |
| Scopes.RepeatedScopeDisagrees | src/Auth0Client.utils.ts:200 | an input on which they disagree |
| Scopes.NothingMissingMeansCovered | src/Auth0Client.utils.ts:157-171 | nothing is reported missing if and only if every requested scope came back, `online_access` excepted in online mode |
| Scopes.MissingAreNamed | src/Auth0Client.utils.ts:157-171 | otherwise the report names exactly the requested scopes that did not come back |
| LoginScopes.TokenFlowsSaveWhereTheyLook | src/Auth0Client.ts:1262-1290 | `getTokenWithPopup` and the silent iframe flow save under the audience and scope they look up |
| LoginScopes.EmptyAudienceIsDefault | src/Auth0Client.ts:1074-1088 | an empty audience in a call is not replaced by the configured one: login and lookup use the default audience |
| LoginScopes.LoginSavesWhereLookedUp | src/Auth0Client.ts:578-602 | so does a login that names its audience, or whose configured audience has no scopes of its own |
| LoginScopes.LoginServesLookupExactly | src/Auth0Client.utils.ts:88-92 | in general a login's entry serves the token request with the same parameters if and only if every scope configured for the audience is a default one or named in the call |
| LoginScopes.LoginMissesConfiguredScope | src/Auth0Client.ts:1074-1088 | an input on which it does not: a configured audience with a scope of its own, and a login without an audience |
| Auth0Clients.Auth0Client.GetIdTokenFromCache | src/Auth0Client.ts:1837-1861 | the in-memory entry while it matches the cached id token, else the cached one, which becomes the in-memory one |
| Auth0Clients.Auth0Client.ClearLocalSession | src/Auth0Client.ts:1787-1799 | cache cleared for the id, in-memory id token gone |
| Auth0Clients.Auth0Client.IsSessionCeilingReached | src/Auth0Client.ts:1816-1835 | the verdict, and the session cleared exactly when it is reached |
| Auth0Clients.Auth0Client.GetUser | src/Auth0Client.ts:706-714 | no user past the ceiling, else the synchronised id token |
| Auth0Clients.Auth0Client.GetEntryFromCache | src/Auth0Client.ts:1863-1899 | an unexpired access token, only together with an id token |
| Auth0Clients.Auth0Client.GetTokenBeforeLock | src/Auth0Client.ts:1106-1129 | ended by the ceiling, answered from the cache, missed by a cache-only call, or on to the lock, with the session after each |
| Auth0Clients.Auth0Client.SaveEntryInCache | src/Auth0Client.ts:1746-1785 | an unacceptable ceiling writes nothing; otherwise id token and entry are stored, in memory and in the cache |
| Auth0Clients.Auth0Client.BeforeSave | src/Auth0Client.ts:1943-1967 | another user's login clears first; other grants keep the stored ceiling |
| Auth0Clients.Auth0Client.CarryToken | src/Auth0Client.ts:1974-1984 | in online mode a reply without refresh token keeps the one in use |
| Auth0Clients.Auth0Client.RequestToken | src/Auth0Client.ts:1909-2011 | the whole effect of a reply on the session |
| Auth0Clients.Auth0Client.PropagateRotatedRefreshToken | src/Auth0Client.ts:1730-1744 | nothing online or without a token before and after, else the rotation |
| Auth0Clients.Auth0Client.Settle | src/Auth0Client.ts:1650-1700 | propagation, then removal of the saved entry when scopes are missing and there is no fallback |
| Auth0Clients.Auth0Client.RefreshFailure | src/Auth0Client.ts:1701-1722 | blocked users are cleared, missing or invalid tokens may fall back |
| Auth0Clients.Auth0Client.BeginRefresh | src/Auth0Client.ts:1595-1635 | the live body looked up, the session after the lookup, and whether a request is sent |
| Auth0Clients.Auth0Client.FinishRefresh | src/Auth0Client.ts:1637-1723 | outcome and session from the reply on, in whatever session it finds; the body is read again then, while the token sent is the one read before |
| Auth0Clients.Auth0Client.Conclude | src/Auth0Client.ts:1650-1722 | what follows the request: settling, or the reaction to its failure |
| Auth0Clients.Auth0Client.RevokeTokens | src/api.ts:162-186 | exactly the tokens before the first failing request are stripped |
| Auth0Clients.Auth0Client.RevokeRefreshToken | src/Auth0Client.ts:1385-1425 | outcome and session of a revocation, cleared in online mode when it succeeded |
| SessionSafety.RequestEffect | src/Auth0Client.ts:1909-2011 | a request keeps the session sound, adds token entries only under the request's own key, and sets the id token exactly when it is issued; a code grant for another user leaves none of the earlier entries |
| SessionSafety.IssuedExactly | src/Auth0Client.ts:1746-1769 | a reply is saved if and only if it is verified and the ceiling to be stored is acceptable |
| SessionSafety.BeginRefreshEffect | src/Auth0Client.ts:1595-1618 | the lookup of a refresh keeps the session sound, leaves the id token and adds no token entry |
| SessionSafety.FinishRefreshEffect | src/Auth0Client.ts:1637-1723 | a reply to a refresh, in any sound session and for any looked-up entry, keeps it sound; id token and token entries afterwards |
| SessionSafety.CheckCeilingEffect | src/Auth0Client.ts:1816-1835 | reached exactly when the stored ceiling is at most 30 seconds away or past |
| SessionSafety.CeilingIsEnforced | src/Auth0Client.ts:1106-1129 | at floor seconds >= ceiling - 30 a token request ends, whatever its cache mode, and neither answers from the cache nor goes on to fetch; no user is returned and the client's entries are gone |
| SessionSafety.NoCeilingNeverEnds | src/Auth0Client.ts:1816-1835 | without a stored ceiling no token request is ended |
| TokenReads.BeforeLockExactly | src/Auth0Client.ts:1106-1129 | for every cache mode, exactly when a token request is over, answered with which token, missed, or on its way to fetch |
| TokenReads.EntryReadExactly | src/Auth0Client.ts:1863-1899 | a token is read if and only if somebody is logged in and the key the lookup resolves to holds it with at least 60 seconds left |
| TokenReads.UserExactly | src/Auth0Client.ts:706-714 | the user handed out is the stored one, and none once the ceiling is at most 30 seconds away |
| TokenReads.SavedEntryExactly | src/Auth0Client.ts:1990-2005 | every field and the expiry of the entry stored for a saved reply |
| TokenReads.IdTokenFoundExactly | src/cache/cache-manager.ts:41-68 | the client's id token entry, and only without one the id token inside an unexpired matching entry |
| TokenReads.SyncedExactly | src/Auth0Client.ts:1837-1861 | the id token is looked up for the configured audience and its scopes; the one in memory is kept while the cache has the same |
| TokenReads.MemoryDecides | src/Auth0Client.ts:1816-1835 | in any session, the ceiling of the id token in memory decides, and the cached one only without that |
| TokenReads.FixedEntriesNeverServe | src/cache/cache-manager.ts:257-277 | id token and manifest entries never answer a request, not even one without scopes |
| RefreshOutcomes.RefreshStartsExactly | src/Auth0Client.ts:1595-1618 | a refresh is sent with the token its lookup finds; without one only if there is a worker, and otherwise it ends in the iframe or without a token |
| RefreshOutcomes.SavedExactly | src/Auth0Client.ts:1746-1769 | a reply is saved if and only if it is verified and its ceiling, or the pinned one, is absent or in seconds, below 10^10 and after the issue time |
| RefreshOutcomes.RefreshAnswersExactly | src/Auth0Client.ts:1637-1723 | the outcome for every reply and any sound session: the reply's access token exactly when it can be saved and no scope is missing; the iframe, the missing scopes or failure exactly otherwise |
| RefreshOutcomes.SavedTokenExactly | src/Auth0Client.ts:1974-2005 | the refresh token held after a save: the reply's; without one, offline none, online the one sent or else the one a lookup finds |
| RefreshOutcomes.OnlineTokenIsKept | src/Auth0Client.ts:1974-1984 | an online refresh whose reply has no refresh token keeps the one it was sent with |
| SessionRuns.StepEffect | src/Auth0Client.ts:1746-1785 | for every event, the second lookup under the lock included, with any requests in flight: the id token afterwards exactly, and where every token entry comes from |
| SessionRuns.IdTokenLostExactly | src/Auth0Client.ts:1787-1835 | an id token is lost if and only if the event is a logout, a read past the ceiling, a refresh refused for a blocked user, or another user's login whose ceiling is rejected |
| SessionRuns.SessionsStaySound | src/Auth0Client.ts:1749-1769 | in every reachable session, however requests overlap, a stored ceiling satisfies iat < ceiling < 10^10 |
| SessionRuns.CeilingStaysPinned | src/Auth0Client.ts:1956-1967 | whatever the server sends and however requests overlap, a stored ceiling keeps its value until a login completes or the session ends |
| SessionRuns.RejectedSaveWritesNothing | src/Auth0Client.ts:1749-1769 | a reply to a login, an exchange or a refresh whose ceiling is not acceptable adds no token entry and leaves the id token, another user's login excepted, which clears first; offline it changes nothing |
| SessionRuns.TokensBelongToOneUser | src/Auth0Client.ts:1943-1954 | in every run in which each reply other than a login's is for the user stored when it arrives, all token entries belong to the subject of the stored id token, which is there whenever a token entry is |
| SessionRuns.EmptySessionIsSound | src/Auth0Client.ts:272-441 | a new client meets the conditions of the run theorems |
| SessionOverlap.ReplyKeepsOneUserExactly | src/Auth0Client.ts:1637-1653 | a reply that is saved, other than a login's, keeps one user's tokens together if and only if it is for the user stored by then, or none is, or the client holds no other token entry |
| SessionOverlap.TwoUsersMeet | src/Auth0Client.ts:1943-1967 | from the empty session: a login, a refresh sent, another user's login for other scopes, then the reply to the refresh leave tokens of two users |
| SessionOverlap.LogoutIsUndoneExactly | src/Auth0Client.ts:1746-1785 | a reply that arrives after a logout logs in again if and only if it is verified with an acceptable ceiling of its own |
| TokenLifetime.SavedIsHeld | src/Auth0Client.ts:1771-1784 | a saved reply is stored under the key of its request, to expire when the server said |
| TokenLifetime.HeldIsFound | src/Auth0Client.ts:1863-1899 | until 60 seconds before that, the request's lookup returns this token and changes no entry |
| TokenLifetime.StepKeepsHeld | src/cache/cache-manager.ts:70-152 | only four kinds of event can end it: the session's end, another user's login, a save under the same key, a lookup when it no longer lasts; no rotation or revocation does |
| TokenLifetime.TheseEndIt | src/Auth0Client.ts:1787-1799 | the session's end and another user's login do end it |
| TokenLifetime.HeldStaysHeld | src/cache/cache-manager.ts:70-212 | a token stays found through every run without such an event |
| UpscopeRollback.RefusedUpscopeRollsBack | src/Auth0Client.ts:1659-1692 | for an explicit audience a refresh ending in missing scopes leaves exactly the earlier token entries, refresh tokens rotated if a new one came |
| UpscopeRollback.RefusedAtReply | src/Auth0Client.ts:1650-1692 | in whatever session the reply finds, a refresh (sent with a cached token, or offline by a worker) ending in missing scopes leaves exactly the token entries stored by then, refresh tokens rotated if a new one came, and none under the request's own key |
| UpscopeRollback.RefreshRotatesExactly | src/Auth0Client.ts:1650-1653 | a refresh that succeeds rotates exactly the client's entries that hold the token it looked up, all that hold one under multi-resource refresh, and none online; no other entry but its own changes |
| UpscopeRollback.RefusedRefreshKeepsTheRest | src/Auth0Client.ts:1659-1692 | undisturbed and for any audience, the other entries keep their values up to the lookup's strip and the rotation, and an entry is lost if and only if one was stored under the request's own key |
| UpscopeRollback.RefusedReplyExactly | src/Auth0Client.ts:1637-1692 | a reply ends a refresh in missing scopes if and only if it is verified with an acceptable ceiling, and the request went beyond the cached grant and came back short, with no fallback |
| UpscopeRollback.RefusedExactly | src/Auth0Client.ts:1609-1692 | a whole refresh does if and only if its request was sent and its reply meets that condition |
| UpscopeRollback.ImplicitAudienceLosesEntry | src/Auth0Client.ts:1660-1685 | without an explicit audience the default audience's entry is lost |
| UpscopeRollback.RefusalLeavesDanglingKey | src/Auth0Client.ts:1678-1685 | with a manifest, every refused upscope leaves its key listed and not stored |
| UpscopeRollback.DanglingKeyHidesLaterSave | src/cache/cache-manager.ts:85-108 | a request that resolves to such a key misses, even after an entry that answers it was saved under a new key |
| Revocation.Accepted | src/api.ts:162-186 | the number of requests before the first failure |
| Revocation.RevocationIsExact | src/Auth0Client.ts:1398-1417 | if request n+1 fails, exactly the first n distinct tokens of the audience are gone from every entry sharing them and nothing else changed; on success no entry of the audience holds one |
| Revocation.RevokedAreHeld | src/cache/cache-manager.ts:319-346 | the tokens to revoke are those the listed entries of the client and audience hold, once each |
| RevocationRuns.RevocationExactly | src/Auth0Client.ts:1385-1425 | without a worker: the audience of the call, else the configured or default one; success if and only if every request was accepted; exactly the accepted tokens are gone and nothing else changed, except that an online success clears the client |
| RevocationRuns.RevocationElsewhere | src/Auth0Client.ts:1385-1425 | without refresh tokens in use nothing happens; with a worker its answer decides, and an online success clears the client |
| RevocationRuns.RevokedExactly | src/cache/cache-manager.ts:181-196 | among any other operations, an accepted answer takes the revoked token from exactly the entries that then hold it |
| RevocationRuns.AnswerClearsExactly | src/api.ts:162-186 | an accepted answer leaves its audience without refresh tokens if and only if it held no other one by then |
| RevocationRuns.RevocationClearsAudience | src/Auth0Client.ts:1398-1417 | when all captured tokens were revoked and no reply was handled in between, the audience holds no refresh token, whatever reads, logouts and new requests came between |
| RevocationRuns.ReplyOutrunsRevocation | src/Auth0Client.ts:1398-1417 | when a reply brought a new refresh token for the audience after the capture, it is still held after all captured ones were revoked |
| TokenWorker.Worker.UpdateRefreshTokens | src/worker/token.worker.ts:61-67 | every entry holding the old token, and no other, holds the new one |
| TokenWorker.Worker.DeleteRefreshTokensByValue | src/worker/token.worker.ts:39-45 | every entry holding the token, and no other, is gone |
| TokenWorker.Worker.StartRequest | src/worker/token.worker.ts:95-139 | the token a handler captures before its fetch, or that none is found |
| TokenWorker.Worker.CompleteRequest | src/worker/token.worker.ts:175-209 | the store after the answer, whatever happened in between, and that no refresh token is posted back |
| TokenWorker.Worker.Clear | src/worker/token.worker.ts:335-339 | the store is empty, the latest token included |
| TokenWorker.Worker.GetRefreshTokensByAudience | src/worker/token.worker.ts:29-37 | the distinct tokens stored for the audience, in the order found |
| TokenWorker.Worker.RevokeStarts | src/worker/token.worker.ts:226-234 | the tokens a revocation captures before its first request |
| TokenWorker.Worker.RevokeAnswered | src/worker/token.worker.ts:257-287 | an accepted request deletes exactly the entries holding its token and the handler goes on; any other answer ends it with the store unchanged |
| WorkerRuns.RefreshCapturesExactly | src/worker/token.worker.ts:95-118 | the token a refresh is sent with: the one for its audience and scope, else under MRRT the latest one unless a stored entry of the audience covers the scopes; none means an error |
| WorkerRuns.OthersCaptureExactly | src/worker/token.worker.ts:130-137 | an MFA completion captures its own token, else the latest under MRRT; other grants capture none |
| WorkerRuns.CompletedExactly | src/worker/token.worker.ts:175-203 | the store after any answer, entry by entry: a new token under the own key, under MRRT also as the latest one and wherever the captured one was held; without a token the own entry goes unless preserved; all else unchanged |
| WorkerRuns.NextRefreshSendsNewToken | src/worker/token.worker.ts:95-196 | a token that came back is sent with the next refresh for its audience and scope |
| WorkerRuns.OtherRefreshSendsLatestToken | src/worker/token.worker.ts:95-189 | and under MRRT with one for any audience or scope that has no token and is not covered |
| WorkerRuns.AnsweredOnce | src/worker/token.worker.ts:175-209 | a handler is over with its answer |
| WorkerRuns.CapturedForRevocation | src/worker/token.worker.ts:29-37 | a revocation captures exactly the tokens stored for its audience, once each |
| WorkerRuns.SpentTokensNeverReturn | src/worker/token.worker.ts:184-203 | for every interleaving, a token that was captured and replaced, or revoked, is in no entry again, the latest one included, and no later handler captures it |
| WorkerRuns.RevokeAnswerIsExact | src/worker/token.worker.ts:273-287 | among any other handlers, one answer removes exactly the entries that then hold the revoked token, or nothing |
| WorkerRuns.RevocationHoldsAmongOthers | src/worker/token.worker.ts:241-289 | for every interleaving, a revocation keeps to the tokens it captured, and no entry holds one it is done with; after the last accepted request none of them is stored |
| WorkerRuns.WorkerRevocationIsExact | src/worker/token.worker.ts:229-289 | a run of one revocation and any answers to its requests: exactly the entries holding one of the n tokens accepted before the first failure are gone, the rest unchanged; after a failure the handler is over and later answers change nothing; on success the audience has no entry |
| WorkerRuns.AudiencesAreSeparate | src/worker/token.worker.ts:13-15 | audiences without a bar never see each other's entries or the one for the latest token |
| Locking.CriticalSectionsAreExclusive | src/Auth0Client.ts:1131-1168 | in every reachable state at most one caller per client and audience is past its lock, and at most one iframe flow per client runs |
| Locking.SomeCallerCanMove | src/Auth0Client.ts:1470-1569 | no reachable state deadlocks on the two lock levels, even without timeouts |
| Locking.RunsAreBounded | src/Auth0Client.ts:1101-1178 | every run is over after at most eight steps per caller, so none livelocks |
| Locking.OneFetchWhileLive | src/Auth0Client.ts:1112-1156 | between two fetches for the same request, the second by an `on` caller, that caller's check under the lock finds that the cache does not answer |
| Locking.StepEndsExactly | src/Auth0Client.ts:1106-1178 | a step ends its caller with an outcome if and only if it is a cause of it: ceiling reached, served by a check, cache-only miss, granted, or failed |
| Locking.OutcomeHasCause | src/Auth0Client.ts:1106-1178 | in every run a finished caller ended for a cause of its outcome |
| Locking.CallersStayWithin | src/Auth0Client.ts:1114-1156 | in every run a `cache-only` caller takes no lock and asks nobody, an `off` caller is never answered from the cache, and only callers with refresh tokens send a refresh |
| Locking.IframeIsFallback | src/Auth0Client.ts:1154-1156 | with refresh tokens in use the iframe is reached only after a refresh fell back to it |
| SilentTokens.FetchedIsHeld | src/Auth0Client.ts:1595-1785 | a fetched token is stored under the key its request looks up, for as long as the server said |
| SilentTokens.OneFetchWhileTokenLasts | src/Auth0Client.ts:1106-1178 | joining callers, locks, session and cache: between a fetch and a later one by an `on` caller for the same request one of the events that may end a token happened, at the latest the second caller's own lookup under the lock, when the first token had run down |
| SilentRun.FetchedTwice | src/Auth0Client.ts:1106-1178 | for any storable request and any two good logins, the second after the first token has run down, a run of two callers that fetches twice |
| SilentRun.FetchedTwiceByApp | src/Auth0Client.ts:1106-1178 | such a run on literal values, from the empty session |
| Locking.AudienceLocksAreApart | src/Auth0Client.utils.ts:25-28 | a client's calls for different audiences use different locks |
| Locking.IframeLockIsApart | src/Auth0Client.utils.ts:15-38 | no audience lock has the name of an iframe lock |
| Locking.IframeLocksAreApart | src/Auth0Client.utils.ts:15-38 | clients share an iframe lock only with themselves |
| SinglePromise.PromiseMap.Call | src/promise-utils.ts:7-15 | joins the promise in flight for the key, else stores a new one |
| SinglePromise.PromiseMap.Settle | src/promise-utils.ts:9-12 | settling deletes the key |
| SinglePromise.CallsShareExactly | src/promise-utils.ts:3-16 | in every run a call is given the unsettled promise of its key if and only if there is one, so none has two in flight |
| AnonymousClients.AnonymousSessionCacheManager.GetStore | src/anonymous/AnonymousSessionCacheManager.ts:89-98 | the store of the key, made on first use; what is stored does not change |
| AnonymousClients.AnonymousSessionCacheManager.RemoveAll | src/anonymous/AnonymousSessionCacheManager.ts:117-121 | everything is empty, and so is every store handed out before |
| AnonymousClients.AnonymousSessionApiClient.CreateSessionAnswered | src/anonymous/AnonymousSessionApiClient.ts:65-75 | the new session replaces the stored one, clears the mark and fills one slot |
| AnonymousClients.AnonymousSessionApiClient.GetTokenStarts | src/anonymous/AnonymousSessionApiClient.ts:92-97 | a fresh slot, or the store to look at again under the lock |
| AnonymousClients.AnonymousSessionApiClient.GetTokenLocked | src/anonymous/AnonymousSessionApiClient.ts:109-121 | expired, or a slot fresh by now, or the session token to present |
| AnonymousClients.AnonymousSessionApiClient.GetTokenAnswered | src/anonymous/AnonymousSessionApiClient.ts:128-154 | the cache after any answer: renewed, emptied and marked, or unchanged |
| AnonymousSession.IdentityIsStable | src/anonymous/AnonymousSessionApiClient.ts:103-156 | in every run all slots carry the identity of the stored session, one call at most is at the server, and every token handed out is the stored identity's |
| AnonymousSession.CreateKeepsIdentityExactly | src/anonymous/AnonymousSessionApiClient.ts:62-76 | `createSession` keeps that if and only if the other slots and a reply in flight are for the same identity |
| AnonymousSession.NewIdentityIsKeptExactly | src/anonymous/AnonymousSessionApiClient.ts:62-76 | for a new identity: if and only if no other slot is stored and no call is at the server |
| AnonymousSession.SecondCreateMixesIdentities | src/anonymous/AnonymousSessionApiClient.ts:62-76 | two creations for different slots and identities break it |
| AnonymousSession.ExpiryStopsRequests | src/anonymous/AnonymousSessionApiClient.ts:109-137 | once a session ended, no call reaches the server until a session is created or a logout is done |
| AnonymousSession.SlotsAreApart | src/anonymous/AnonymousSessionCacheManager.ts:89-98 | slots are kept apart by audience and scope, absent ones counting as empty |
| AnonymousSession.CallAnswersExactly | src/anonymous/AnonymousSessionApiClient.ts:92-97 | a call is answered at once if and only if its slot has more than 60 seconds left |
| AnonymousSession.EnterAnswersExactly | src/anonymous/AnonymousSessionApiClient.ts:109-128 | under the lock it is refused exactly when the session ended, answered exactly from a store still in use with more than 60 seconds left, and else asks the server with the session token |
| AnonymousSession.ReplyIsStoredExactly | src/anonymous/AnonymousSessionApiClient.ts:128-154 | what every kind of answer leaves in the cache and hands out |
| AnonymousSession.CreatedAndLoggedOut | src/anonymous/AnonymousSessionApiClient.ts:62-76 | a creation replaces the session, unmarks it and fills one slot; a logout leaves nothing |
| AnonymousSession.TimeoutIsAnError | src/anonymous/AnonymousSessionApiClient.ts:103-109 | a call that gives up waiting for the lock gets an error and changes nothing |
| AnonymousSession.GrantedIsServed | src/anonymous/AnonymousSessionApiClient.ts:92-154 | in every run a granted token is served to later calls for its slot while more than 60 seconds are left and nothing wrote the slot |
| AnonymousSession.AttachedExactly | src/anonymous/AnonymousSessionCacheManager.ts:117-121 | a waiting call loses its store exactly when stores were dropped meanwhile, in memory only |
| PasskeySignup.PasskeyApiClient.SignupChallenged | src/passkey/PasskeyApiClient.ts:91-102 | a pending session is kept exactly when identifiers must be verified |
| PasskeySignup.PasskeyApiClient.ContinueSignup | src/passkey/PasskeyApiClient.ts:316-339 | errors keep the pending session; otherwise the call takes it and leaves none |
| PasskeySignup.PasskeyApiClient.CeremonyReturns | src/passkey/PasskeyApiClient.ts:340-356 | a failed or cancelled prompt puts the session back |
| PasskeySignup.PasskeyApiClient.ExchangeReturns | src/passkey/PasskeyApiClient.ts:359-379 | a retryable error puts it back with the passkey |
| PasskeySignup.PendingSessionsAreLinear | src/passkey/PasskeyApiClient.ts:333-379 | for any number of signups and overlapping calls, a pending session has one owner, at most one passkey is created for it, and every exchange presents that one |
| PasskeySignup.OneSignupIsNeverLost | src/passkey/PasskeyApiClient.ts:333-379 | after one signup the session is pending, owned by one call or settled by one exchange, exactly one of these, and at most one passkey exists |
| PasskeySignup.StepMovesOne | src/passkey/PasskeyApiClient.ts:316-380 | every step moves a session from one place to one other; only an interrupted signup creates one |
| PasskeySignup.RestoredExactly | src/passkey/PasskeyApiClient.ts:340-379 | in every run of one signup the pending session is back exactly on ceremony failure or cancellation, unchanged, or on a retryable exchange error, with its passkey |
| PasskeySignup.LostExactly | src/passkey/PasskeyApiClient.ts:85-376 | a signup that could be continued or is settled is afterwards neither pending, nor owned by a call, nor settled, if and only if it waited in the slot and the step writes the slot |
| PasskeySignup.StaleRestoreDropsNewSignup | src/passkey/PasskeyApiClient.ts:343-350 | a prompt failing after a second signup overwrites the new session |
| PasskeySignup.MissingExactly | src/passkey/PasskeyApiClient.ts:320-332 | missing are exactly the required identifiers with no code or an empty one |
| PasskeySignup.ContinueExactly | src/passkey/PasskeyApiClient.ts:316-339 | no pending signup, missing codes by name with the session kept, or the session taken, to the prompt without a passkey and to the exchange with one |
| PasskeySignup.OutcomesExactly | src/passkey/PasskeyApiClient.ts:340-379 | which ending gives which outcome, each exactly |
| PasskeySignup.InterruptedIsPending | src/passkey/PasskeyApiClient.ts:91-102 | the pending session is what the challenge said, without a passkey |
| PasskeySignup.RetryGoesOn | src/passkey/PasskeyApiClient.ts:333-379 | after a retryable error the next call with all codes presents the same passkey with the error's session, without a second prompt |
| MfaContexts.MfaContextManager.Set | src/mfa/MfaContextManager.ts:66-75 | lapsed contexts are dropped, the new one is stored |
| MfaContexts.MfaContextManager.Get | src/mfa/MfaContextManager.ts:84-97 | the context unless it lapsed, in which case it is dropped |
| MfaContexts.MfaContextManager.Cleanup | src/mfa/MfaContextManager.ts:113-120 | exactly the lapsed contexts are gone, in whatever order the keys are walked |
| MfaContexts.RunRefinesLog | src/mfa/MfaContextManager.ts:66-120 | under a monotone clock every `get` of every run answers as the log does: the last operation on the token was a `set` at most the time-to-live ago |
| MfaContexts.CleanupIsUnobservable | src/mfa/MfaContextManager.ts:109-120 | no `get` of any run can tell whether `set` cleans up |
| MfaContexts.CleanupShowsExactly | src/mfa/MfaContextManager.ts:66-120 | for any clock, a `get` answers differently with and without cleanup if and only if the token's last context would still be live and a later `set` swept it |
| MfaContexts.CleanupShowsOnlyBackward | src/mfa/MfaContextManager.ts:109-120 | that takes a sweep at a later reading than the `get` |
| MfaContexts.BackwardClockShowsCleanup | src/mfa/MfaContextManager.ts:113-120 | such an input |
| MfaContexts.SetLeavesOnlyLive | src/mfa/MfaContextManager.ts:66-75 | after a `set` no stored context has lapsed at the reading of its cleanup, if and only if the time-to-live admits the new one |
| MfaContexts.SetLeavesOnlyLiveLater | src/mfa/MfaContextManager.ts:66-75 | at the later reading that the new context is stamped with, if and only if the time-to-live is not negative and no other context lapsed in the gap between the two readings |
| MfaContexts.DefaultIsTenMinutes | src/mfa/MfaContextManager.ts:18-21 | by default a context is answered for ten minutes |
| Base64Url.Base64urlToBuffer | src/passkey/PasskeyApiClient.ts:390-399 | the byte array holds exactly the decoded bytes, and malformed input is refused exactly when the decoder refuses it |
| Base64Url.PaddingIsRestored | src/passkey/PasskeyApiClient.ts:387-392 | re-padding an encoding gives the padded base64 string it was made from, for every byte sequence |
| Base64Url.DecodeInvertsEncode | src/passkey/PasskeyApiClient.ts:384-399 | decoding an encoding gives the bytes back, for every byte sequence |
| Base64Url.EncodeInvertsDecodeExactly | src/passkey/PasskeyApiClient.ts:384-399 | encoding a decoding gives the string back if and only if it is unpadded, url-safe, of a possible length and with zero spare bits |
| Base64Url.EncodersAgree | src/utils.ts:232-256 | `bufferToBase64url` and `bufferToBase64UrlEncoded` agree on every byte sequence |

## Left out

- The clock: each operation is given one reading of it, except `MfaContexts.MfaContextManager.Set`, which has two.
- Network, timeouts and retries in `src/http.ts` and `src/fetcher.ts`: replies are arbitrary inputs.
- Cookies, DPoP, organisation hints and `isAuthenticated` flags written beside the caches.
- JWT verification: a reply is refused, not verifiable, or granted with arbitrary claims that have a subject.
- The iframe flow inside a refresh: the refresh reports `UseIframe`, and the login it makes is a login of `SessionRuns`.
- The interactive popup handler and `_requestTokenForMfa`: further grants of kinds already modelled.
- `messageRouter` and its URL checks: a worker request is modelled once it was let through.
- The worker side of the client's `clear`: the client's session and the worker's store are separate models.
- Interleavings between two cache accesses without a request in between: `SessionRuns` cuts an operation at its request, and takes what precedes it and what follows the reply as one step each. `RotationConvergence` cuts between save and propagation too.
- A client revocation of several tokens in `SessionRuns`: one event for each accepted request.
- What a looked-up body reads as when the reply arrives is any refresh token in `SessionRuns`; `Auth0Clients` reads the live body.
- UpscopeRollback.RefusedUpscopeRollsBack: is stated for a client without a worker, whose cache holds the refresh tokens; `UpscopeRollback.RefusedAtReply` covers the reply to an offline worker's refresh.
- Interleavings inside one `updateEntry` or one manifest `add`: each is one step.
- Caches other than the in-memory one: a key-less cache with a manifest is modelled by its index, not by its storage; `localStorage` copies bodies where memory shares them.
- Id token slots holding something else, and claims beyond subject, issue time and ceiling.
- Session run theorems clear with the client's own id or none, as the client does.
- `localStorage` mode of the anonymous cache: modelled in `AnonymousSession` as stores that are never detached; the class is the memory mode.
- WebAuthn passkey creation of an uninterrupted signup and of enrolments: no state is kept for it.
- `browser-tabs-lock` and Web Locks: taken by the contract of `runWithLock`.
- `src/myaccount`, error classes, query building and the configuration of the client.
