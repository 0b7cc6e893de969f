# Jellyfin: unsafe authorization and the instant-mix and persons endpoints

A Dafny model of three small pieces of Jellyfin's web API.

- **The unsafe (IP-fallback) authorization handler.** A request passes if its
  claims carry a non-empty user id that the user manager resolves. Otherwise
  there must be a current HTTP context with a normalised remote IP. That IP
  must equal the `RemoteEndPoint` of some active session, compared ordinal
  and case-insensitively. The handler records exactly one verdict on the
  shared authorization context and returns. The model has the context as a
  class whose `Succeed`/`Fail` methods log the call. The handler is a class
  whose injected collaborators are fields. Its method `HandleRequirement` is
  proved to record `UnsafeVerdict`, a pure function of the inputs. The
  early-exit `foreach` over the sessions is the method `ScanSessions`.
- **The instant-mix endpoints.** Seven routes check that the caller may act
  for the supplied user id, resolve the user, ask the music manager for a mix
  and hand it to `GetResult`. `GetResult` records the total count before
  truncation. It cuts the list to its first `limit` items only when
  `limit < Count`. A negative limit passes that test and makes
  `List.GetRange` throw. The DTOs are built from the cut list.
- **The persons endpoints.** `GetPersons` builds the people query from the
  request. An explicit `isFavorite` wins. Without one, an `IsFavorite`
  filter means `true`. A missing limit becomes 0 and a missing
  `appearsInItemId` becomes `Guid.Empty`. The result is one DTO per person,
  in order. `GetPerson` answers 403, then 404, then the person's DTO. User
  data is attached only for a present, non-empty user id.

The collaborators are function-valued parameters or fields. These are the
user, session, library and music managers, the DTO service, the permission
check `RequestHelpers.AssertCanUpdateUser`, and the HTTP context's
`GetNormalizedRemoteIP`.

The code differs from a plain reading of the handler's purpose in one
place, and the model follows the code. The handler does not re-run the
general claim validation. It only asks whether the claim's user id is
non-empty and resolves to a user. A resolved user is enough, whatever else
the claims say.

Files: `common.dfy` (module `ApiCommon`: Guid, User, Option, responses, the
shared user guard and user resolution), `unsafe_authorization.dfy` (module
`UnsafeAuthorization`), `instant_mix.dfy` (module `InstantMix`),
`persons.dfy` (module `Persons`).

## Model

| member | source | states |
|---|---|---|
| ApiCommon.ResolveUser | Jellyfin.Api/Controllers/InstantMixController.cs:93-95 | no user for an absent id or `Guid.Empty`; for a present, non-empty id, exactly what the user lookup returns |
| ApiCommon.MayActFor | Jellyfin.Api/Controllers/InstantMixController.cs:84-90 | an absent user id always passes the guard; a supplied one passes exactly when the permission check accepts it |
| ApiCommon.ResolveUserNoneIff | Jellyfin.Api/Controllers/PersonsController.cs:104-106 | the user is null exactly when the id is absent, is the default Guid, or resolves to nobody |
| UnsafeAuthorization.EqualsOrdinalIgnoreCase | Jellyfin.Api/Auth/UnsafeAuthorizationPolicy/UnsafeAuthorizationHandler.cs:75 | strings equal ignoring case have the same length; every string equals itself |
| UnsafeAuthorization.EqualsIgnoreCaseIffSameUpper | Jellyfin.Api/Auth/UnsafeAuthorizationPolicy/UnsafeAuthorizationHandler.cs:75 | ordinal case-insensitive equality holds exactly when both strings upper-case to the same string |
| UnsafeAuthorization.EqualsIgnoreCaseIsEquivalence | Jellyfin.Api/Auth/UnsafeAuthorizationPolicy/UnsafeAuthorizationHandler.cs:75 | the IP comparison is reflexive, symmetric and transitive |
| UnsafeAuthorization.HasValidCredential | Jellyfin.Api/Auth/UnsafeAuthorizationPolicy/UnsafeAuthorizationHandler.cs:48-52 | real credentials are exactly a non-empty user id that the user manager resolves to a user |
| UnsafeAuthorization.SessionMatches | Jellyfin.Api/Auth/UnsafeAuthorizationPolicy/UnsafeAuthorizationHandler.cs:75 | a session with a null end point never matches; a session whose end point is the IP itself always does |
| UnsafeAuthorization.AnySessionMatches | Jellyfin.Api/Auth/UnsafeAuthorizationPolicy/UnsafeAuthorizationHandler.cs:73-80 | some index holds a matching session exactly when some member of the session list matches |
| UnsafeAuthorization.FallbackVerdict | Jellyfin.Api/Auth/UnsafeAuthorizationPolicy/UnsafeAuthorizationHandler.cs:59-82 | a missing HTTP context or remote IP fails; otherwise it succeeds exactly when some active session matches the IP |
| UnsafeAuthorization.UnsafeVerdict | Jellyfin.Api/Auth/UnsafeAuthorizationPolicy/UnsafeAuthorizationHandler.cs:48-83 | real credentials succeed; without them the verdict is the IP fallback's |
| UnsafeAuthorization.Record | Jellyfin.Api/Auth/UnsafeAuthorizationPolicy/UnsafeAuthorizationHandler.cs:54-62 | after a recorded verdict the context is no longer pending; it has failed exactly when it had failed before or the verdict is Fail, so a failure is final; from pending it succeeds exactly on Succeed |
| UnsafeAuthorization.AuthorizationHandlerContext.Succeed | Jellyfin.Api/Auth/UnsafeAuthorizationPolicy/UnsafeAuthorizationHandler.cs:54 | appends one Succeed to the context's log and moves it to Succeeded unless it already failed |
| UnsafeAuthorization.AuthorizationHandlerContext.Fail | Jellyfin.Api/Auth/UnsafeAuthorizationPolicy/UnsafeAuthorizationHandler.cs:62 | appends one Fail to the context's log and moves it to Failed |
| UnsafeAuthorization.ScanSessions | Jellyfin.Api/Auth/UnsafeAuthorizationPolicy/UnsafeAuthorizationHandler.cs:73-80 | finds a match exactly when some session's end point equals the IP ignoring case; stops at the first match; examines every session when none matches |
| UnsafeAuthorization.UnsafeAuthorizationHandler.constructor | Jellyfin.Api/Auth/UnsafeAuthorizationPolicy/UnsafeAuthorizationHandler.cs:31-39 | the handler keeps the injected user lookup, HTTP context and sessions |
| UnsafeAuthorization.UnsafeAuthorizationHandler.HandleRequirement | Jellyfin.Api/Auth/UnsafeAuthorizationPolicy/UnsafeAuthorizationHandler.cs:42-84 | records exactly one verdict, the one `UnsafeVerdict` gives; examines no session when real credentials are given; never changes the sessions |
| UnsafeAuthorization.UnsafeVerdictSucceedIff | Jellyfin.Api/Auth/UnsafeAuthorizationPolicy/UnsafeAuthorizationHandler.cs:48-83 | access is granted exactly on a resolvable user id, or on a known remote IP that matches an active session |
| UnsafeAuthorization.CredentialOverridesFallback | Jellyfin.Api/Auth/UnsafeAuthorizationPolicy/UnsafeAuthorizationHandler.cs:48-56 | with a resolvable user id the verdict is Succeed whatever the HTTP context and sessions |
| UnsafeAuthorization.UnknownUserIsAnonymous | Jellyfin.Api/Auth/UnsafeAuthorizationPolicy/UnsafeAuthorizationHandler.cs:49-57 | a user id that resolves to nobody is judged exactly as a request with no user id, by the IP fallback |
| UnsafeAuthorization.NoAddressFails | Jellyfin.Api/Auth/UnsafeAuthorizationPolicy/UnsafeAuthorizationHandler.cs:60-71 | without credentials, a missing HTTP context or a null remote IP fails |
| UnsafeAuthorization.NullEndPointIgnored | Jellyfin.Api/Auth/UnsafeAuthorizationPolicy/UnsafeAuthorizationHandler.cs:73-80 | a session with a null end point, inserted anywhere, changes no verdict |
| UnsafeAuthorization.VerdictIndependentOfOrder | Jellyfin.Api/Auth/UnsafeAuthorizationPolicy/UnsafeAuthorizationHandler.cs:73-79 | the verdict depends on which sessions are active, not on their order |
| UnsafeAuthorization.MoreSessionsNeverRevoke | Jellyfin.Api/Auth/UnsafeAuthorizationPolicy/UnsafeAuthorizationHandler.cs:73-82 | adding active sessions never turns a granted request into a failed one |
| UnsafeAuthorization.FallbackExamples | Jellyfin.Api/Auth/UnsafeAuthorizationPolicy/UnsafeAuthorizationHandler.cs:73-82 | a session from 10.0.0.5 admits 10.0.0.5 and not 10.0.0.6; IPv6 text matches regardless of letter case |
| InstantMix.ApplyLimit | Jellyfin.Api/Controllers/InstantMixController.cs:375-378 | a negative limit throws; otherwise the kept list is a prefix of the items, of length `limit` when `limit` is below the count and the whole list otherwise |
| InstantMix.ApplyLimitIdempotent | Jellyfin.Api/Controllers/InstantMixController.cs:375-378 | applying the same limit to an already limited list changes nothing |
| InstantMix.ApplyLimitCompose | Jellyfin.Api/Controllers/InstantMixController.cs:375-377 | two non-negative limits in a row keep what the smaller one alone keeps |
| InstantMix.PlaylistCastFails | Jellyfin.Api/Controllers/InstantMixController.cs:180 | the cast can fail only on the playlist route and only for a non-null item; a null item never fails it |
| InstantMix.MixItems | Jellyfin.Api/Controllers/InstantMixController.cs:230 | the music-genre-by-name route mixes from the one-element genre list; every other route mixes from the item the library returns for its id |
| InstantMix.GetResult | Jellyfin.Api/Controllers/InstantMixController.cs:366-385 | the total is the item count before truncation; the items are the DTOs of the truncated list for the given user; a negative limit throws |
| InstantMix.GetInstantMix | Jellyfin.Api/Controllers/InstantMixController.cs:72-364 | 403 when a supplied user id fails the permission check; the playlist route throws on a non-playlist item; otherwise the mix for the resolved user, paged by `GetResult` |
| Persons.MergeIsFavorite | Jellyfin.Api/Controllers/PersonsController.cs:108-115 | an explicit flag is kept; without one the flag is set exactly when the filters hold `IsFavorite`; it is false only when given as false |
| Persons.BuildPeopleQuery | Jellyfin.Api/Controllers/PersonsController.cs:109-118 | the query carries the person types, search term and user; a missing limit is 0 and a missing `appearsInItemId` is `Guid.Empty`; the favourite flag follows the merge |
| Persons.GetPersons | Jellyfin.Api/Controllers/PersonsController.cs:77-124 | 403 exactly when a supplied user id fails the permission check; otherwise one DTO per person found, in order, for the resolved user |
| Persons.GetPerson | Jellyfin.Api/Controllers/PersonsController.cs:138-164 | 403 exactly on a failed permission check, 404 exactly when no person has the name, otherwise the person's DTO for the resolved user |
| Persons.FilterOnlyAddsFavorites | Jellyfin.Api/Controllers/PersonsController.cs:108-115 | removing a filter never changes a favourite condition that is still set |
| Persons.ActionsAgreeOnUser | Jellyfin.Api/Controllers/PersonsController.cs:157-163 | `GetPerson` attaches the same user that `GetPersons` puts in its query |

## Left out

- The live-stream sharing broker (acquiring, releasing and reference-counting tuner streams) is not part of this model. Only its interface `MediaBrowser.Controller/Library/ILiveStream.cs` exists in the code modelled here, with no acquire, release or registry logic.
- `LiveTvAccessHandler` is not modelled. It delegates everything to a base-class claim validation that is not part of this model.
- `WriteOnlyStream`, `FileCallbackResult` and `IActivityManager` are not modelled. They are I/O adapters, response plumbing and a persistence interface.
- `UnsafeAuthorizationRequirement` is an empty marker. The context logs the verdict without the requirement object.
- The authorization context is framework code. It is modelled as a log of calls plus a state in which a recorded failure is final.
- Claim extraction (`GetUserId`) is not modelled. The context carries the resulting Guid.
- `GetNormalizedRemoteIP` and `IPAddress.ToString` are not modelled. The HTTP context carries the resulting string or null.
- The session manager's `Sessions` is a snapshot taken when the handler is built. Concurrent changes to the session list are not modelled.
- The HTTP context is likewise fixed when the handler is built, where the source reads it through `IHttpContextAccessor` on every call. One handler object therefore stands for one request.
- Ordinal case-insensitive comparison is modelled for ASCII letters only. Upper-casing of non-ASCII characters is left out, since IP text is ASCII.
- A Guid is a natural number, with 0 as `Guid.Empty`. Its 128-bit width plays no part in the logic.
- `RequestHelpers.AssertCanUpdateUser` is a pure boolean function of the user id. It is awaited in one controller and called synchronously in the other; the model does not distinguish these.
- `Task`/`async` plumbing and `ActionResult` wrapping are not modelled. Results are the `Response` datatype; an escaping exception is `Thrown`.
- DTO options (`fields`, `enableImages`, `enableUserData`, `imageTypeLimit`, `enableImageTypes`, client fields) are not modelled. They only shape the DTOs and are folded into the DTO-service functions.
- The seven instant-mix actions are one method over a route datatype. The library lookup and the music manager call are functions of the item and user.
- Persons.GetPerson: the two-argument `GetBaseItemDto(item, dtoOptions)` is modelled as the DTO builder with no user. This assumes the DTO service's user argument is optional and defaults to null; that service is not part of this model.
- Persons.GetPersons: the total record count equals the item count. This assumes what the `QueryResult(items)` constructor does; that constructor is not part of this model.
- A negative `limit` in `GetPersons` is passed to the people query unchanged. What the library manager does with it is not part of this model.
