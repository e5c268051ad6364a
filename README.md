# DailyDigest core, modelled in Dafny

DailyDigest lets users connect a Gmail account through OAuth2. The server
keeps the connected accounts in one in-memory array, `connectedUsers`.
An admin, behind a shared-secret login and a signed session cookie, can
list these accounts, re-sync one (refreshing its access token when it has
expired) or revoke one. The browser client shows relative times such as
"3 hours ago" and a list of toast notifications.

This project models three pieces of that code, on top of shared value types:

- `values.dfy`: shared value types. `Option` stands for a JavaScript value
  that may be `undefined`/`null`. `Call` is the outcome of an awaited library
  call that returns or throws. `Reply` is an HTTP reply, either a body or an
  error status with its message. `Truthy` is JavaScript truthiness of an
  optional string.
- `accounts.dfy` (module `Accounts`): the account record and each route
  handler of `server/index.js`, written as a function from the old store
  (and the outcomes of the external calls) to the new store and the reply.
  Lemmas state the upsert, lookup, sync and revoke rules.
- `server.dfy` (module `Server`): the `connectedUsers` array as a class
  `ConnectedUsers` with a `seq<Account>` field. Each handler is a method that
  changes that field step by step, using the same `findIndex` scan as the
  source (`FindIndex`, a loop). Each handler that changes the store is proved
  to produce exactly the store and the reply of the matching `Accounts`
  function, and to keep ids unique; `Status` and `ListUsers` only read it.
- `relative_time.dfy` (module `RelativeTime`): `formatDistance` on whole
  millisecond instants, with the decimal rendering of the count.
- `toasts.dfy` (module `Toasts`): the `toast` and `removeToast` updaters as
  sequence functions, the provider's state as a class, and the behaviour of
  `useToast` outside a provider.

Some things the model cannot see are passed in as inputs:

- The clock: `Date.now()` becomes `nowMs` and `new Date().toISOString()`
  becomes `nowIso`. `formatDistance`'s default argument `baseDate = new Date()`
  is not modelled: `FormatDistance` always takes `baseDate` explicitly.
- `Math.round(Math.abs(diff) / 1000)`, a floating-point expression, becomes
  the integer `(ms + 500) / 1000` on the absolute millisecond difference.
  See `RelativeTime.RoundedSeconds` under "Left out" for where the two can differ.
- The id `uuidv4()` would produce becomes `id`.
- Each awaited googleapis call becomes a `Call` outcome: `getToken`,
  `userinfo.get`, `refreshAccessToken` and `messages.list`.
- `revokeToken` becomes a `string -> bool` that says whether revoking a given
  token succeeds.
- `jwt.verify` becomes a `string -> bool` verifier. `jwt.sign` becomes the
  `signed` token handed to login.

Two facts about the code are worth stating outright:

- Revoking an id that is no longer stored answers 404, so revoke is not
  idempotent (`RevokeTwiceIsNotFound`).
- The refresh runs only when `Date.now() > expiryDate`, a strict comparison.
  An expiry equal to now does not trigger it.

Login compares the submitted key with the configured one using `!==` on
values that may be `undefined`. If `ADMIN_SECRET_KEY` is not set, a request
without a `secretKey` therefore matches and is issued a cookie. `AdminLogin`
keeps this behaviour: its contract is stated over optional values.

## Model

| member | source | states |
|---|---|---|
| `Accounts.IndexOf` | server/index.js:96 | the `findIndex` result: -1 exactly when no record has the key, else the first position holding it |
| `Server.FindIndex` | server/index.js:230 | the scanning loop returns the first position with the key, or -1 when there is none |
| `Accounts.WithoutIdMembers` | server/index.js:260 | a record survives the id filter exactly when its id differs |
| `Accounts.CallbackEffect` | server/index.js:67-113 | a failed exchange or profile fetch is 500 "Failed to authenticate with Gmail" and leaves the store unchanged; on success the reply is only the profile's email and name (no token field), and the store then holds a record with the profile's id |
| `Accounts.NewRecord` | server/index.js:83-93 | the record built by the callback carries the profile's id and email and the exchange's refresh token, is stamped `connectedAt` now, and has never been synced (`lastSynced` null) |
| `Accounts.Merge` | server/index.js:98-103 | the merged record takes the new id and stamps, and its refresh token is the new one when that is truthy; it is truthy whenever either the stored or the new one was |
| `Accounts.Upsert` | server/index.js:95-106 | the store grows by at most one record and afterwards holds a record with the user's id; the placement and merge rules are in `UpsertAppendsNew`, `UpsertMergesExisting`, `UpsertKeepsIdsUnique` and `UpsertNeverDropsRefreshToken` |
| `Accounts.UpsertAppendsNew` | server/index.js:104-106 | an id not yet stored appends exactly that record at the end and leaves every earlier record where it was |
| `Accounts.UpsertMergesExisting` | server/index.js:83-103 | an existing id keeps the length; that record takes every new field (so `connectedAt` is re-stamped and `lastSynced` reset to null), except that a falsy new refresh token keeps the stored one; all other records are unchanged |
| `Accounts.UpsertKeepsIdsUnique` | server/index.js:95-106 | upsert keeps ids unique, and the only new id it can add is the profile's |
| `Accounts.UpsertNeverDropsRefreshToken` | server/index.js:101-102 | a stored truthy refresh token stays truthy at the same position after any upsert |
| `Accounts.StatusOf` | server/index.js:128-136 | a found record always reports `connected: true` with its own email and `lastSynced` |
| `Accounts.LookupStatus` | server/index.js:116-137 | an absent or empty email is 400 "Email is required"; an email no record has gives `connected: false`; otherwise the fields of the first record with that email |
| `Accounts.AdminGate` | server/index.js:140-153 | a request reaches the handler exactly when the cookie is present, non-empty and verifies; a missing cookie is 401 "Authentication required"; every rejection is 401 |
| `Accounts.Guarded` | server/index.js:181 | on an admin route a denied request gets the gate's error and the store is untouched; an admitted one gets the handler's effect |
| `Accounts.AdminLogin` | server/index.js:156-172 | a session cookie is issued exactly when the key equals the configured secret; otherwise 401 "Invalid secret key" with no cookie; the cookie is `admin_token`, http-only, one hour |
| `Accounts.LoginThenGate` | server/index.js:147-169 | assuming the verifier accepts the signed token, the cookie that login issues carries that token and passes the admin gate |
| `Accounts.Public` | server/index.js:183-191 | an admin list entry keeps the record's id, email and `lastSynced`; its type has no token field |
| `Accounts.PublicList` | server/index.js:183-191 | the admin list has the store's length and order, and each entry carries that record's public fields (its type has no token fields) |
| `Accounts.Expired` | server/index.js:214 | an absent expiry and an expiry equal to now are not expired; an expiry before now is |
| `Accounts.MessageCount` | server/index.js:237 | the count is 0 exactly when the listing has no `messages` field or an empty one |
| `Accounts.SyncEffect` | server/index.js:197-244 | an unknown id is 404 with the store unchanged. Only the matching record can change, and never its identity or refresh token. The access token and expiry change exactly when `now > expiry` strictly and the refresh returned. The reply succeeds exactly when any needed refresh and the listing both returned; then `lastSynced` is now and the count is the number of messages (0 when absent). Otherwise it is 500 "Failed to sync with Gmail" and `lastSynced` keeps its value |
| `Accounts.RefreshOnlyWhenExpired` | server/index.js:213-218 | when the stored expiry has not passed, the refresh outcome makes no difference to the store or the reply |
| `Accounts.ListingFailureKeepsRefresh` | server/index.js:214-243 | if the listing throws after a refresh, the new access token and expiry persist, `lastSynced` does not change and the reply is 500 |
| `Accounts.SyncKeepsIdsUnique` | server/index.js:214-233 | sync keeps ids unique |
| `Accounts.RevokeEffect` | server/index.js:247-269 | the reply succeeds exactly when some record has the id; otherwise 404 with the store unchanged. On success exactly one record is removed, whatever the upstream revoke did; the warning is present exactly when revoking that record's access token failed |
| `Accounts.WithoutAbsentId` | server/index.js:260 | filtering out an id no record has changes nothing |
| `Accounts.SpliceIsWithoutId` | server/index.js:260-266 | with unique ids, splicing out the found position equals filtering out the id, so the rest keep their order |
| `Accounts.SpliceKeepsIdsUnique` | server/index.js:260-266 | splicing one position out of a store with unique ids keeps them unique |
| `Accounts.RevokeRemovesExactly` | server/index.js:249-267 | revoking a stored id removes exactly that record, keeps the others in order, keeps ids unique and leaves no record with that id |
| `Accounts.RevokeTwiceIsNotFound` | server/index.js:249-253 | revoking the same id a second time is 404: revoke is not idempotent |
| `Server.ConnectedUsers.constructor` | server/index.js:32 | the store starts empty |
| `Server.ConnectedUsers.Callback` | server/index.js:67-113 | the in-place upsert gives the store and reply of `CallbackEffect` and keeps ids unique |
| `Server.ConnectedUsers.Status` | server/index.js:116-137 | the lookup returns `LookupStatus` of the store and modifies nothing |
| `Server.ConnectedUsers.ListUsers` | server/index.js:181-194 | a denied request gets the gate's error; otherwise the tokenless list |
| `Server.ConnectedUsers.Sync` | server/index.js:197-244 | the in-place field writes give the store and reply of the gated `SyncEffect` and keep ids unique |
| `Server.ConnectedUsers.Revoke` | server/index.js:247-269 | the in-place splice gives the store and reply of the gated `RevokeEffect` and keeps ids unique |
| `RelativeTime.RoundedSeconds` | src/utils/relativeTime.ts:9 | `Math.round(ms / 1000)`: the nearest whole second, halves rounded up |
| `RelativeTime.FormatDistance` | src/utils/relativeTime.ts:8-39 | the phrase is never empty and starts with a digit exactly from a minute on; the rest of its behaviour is stated by `UnderAMinute`, `FormatReadsBack` and `PastIffAgo` |
| `RelativeTime.FormatDependsOnDistanceAndSide` | src/utils/relativeTime.ts:9-11 | the phrase depends only on the absolute difference and on which instant is earlier |
| `RelativeTime.UnderAMinute` | src/utils/relativeTime.ts:16-17 | under a minute (a difference below 59.5 s) the phrase is "just now" for a past date and "in a few seconds" otherwise, equal instants included |
| `RelativeTime.UnitFor` | src/utils/relativeTime.ts:16-36 | from 60 s on, the unit is chosen by half-open ranges: minute [60,3600), hour [3600,86400), day [86400,604800), week [604800,2592000), month [2592000,31536000), year beyond |
| `RelativeTime.ValueBounds` | src/utils/relativeTime.ts:19-35 | the count is at least 1, at most 59 minutes, 23 hours, 6 days, 4 weeks or 12 months |
| `RelativeTime.UnitWord` | src/utils/relativeTime.ts:20-35 | the unit word is singular exactly when the count is 1, and is singular + "s" otherwise |
| `RelativeTime.NumeralRoundTrip` | src/utils/relativeTime.ts:38 | reading the decimal numeral of a count back gives the count |
| `RelativeTime.PhraseReadsBack` | src/utils/relativeTime.ts:38 | a phrase that starts with a numeral and a space has that number as its leading number |
| `RelativeTime.FormatReadsBack` | src/utils/relativeTime.ts:18-38 | from a minute on, the phrase is `value unit suffix` and its leading number reads back as `floor(seconds / unit size)` |
| `RelativeTime.PastIffAgo` | src/utils/relativeTime.ts:10-38 | the phrase is "just now" or ends in "ago" exactly when `date` is before `baseDate` |
| `Toasts.Appended` | src/hooks/useToast.tsx:24-26 | `toast` appends exactly one entry, carrying the given id, title, description and variant, after all earlier entries in order |
| `Toasts.Removed` | src/hooks/useToast.tsx:28-30 | `removeToast` leaves no entry with the id and never lengthens the list |
| `Toasts.RemovedKeepsOthers` | src/hooks/useToast.tsx:29 | every entry with another id survives, as many times as it was there |
| `Toasts.RemovedDistributes` | src/hooks/useToast.tsx:29 | removing from a concatenation removes from each part, so survivors keep their order |
| `Toasts.RemovedAbsent` | src/hooks/useToast.tsx:29 | removing an id not on the list leaves the list unchanged |
| `Toasts.RemovedIdempotent` | src/hooks/useToast.tsx:29 | removing an id twice is removing it once |
| `Toasts.ToastThenRemove` | src/hooks/useToast.tsx:25-29 | removing a toast just added under a fresh id restores the previous list |
| `Toasts.ToastProvider.constructor` | src/hooks/useToast.tsx:22 | the provider starts with no toasts |
| `Toasts.ToastProvider.AddToast` | src/hooks/useToast.tsx:24-26 | the state becomes `Appended` of the old state |
| `Toasts.ToastProvider.RemoveToast` | src/hooks/useToast.tsx:28-30 | the state becomes `Removed` of the old state |
| `Toasts.HookToast` | src/hooks/useToast.tsx:39-53 | under a provider `toast` appends; without one the list stays empty and nothing changes |
| `Toasts.HookRemoveToast` | src/hooks/useToast.tsx:39-53 | under a provider `removeToast` filters; without one it is a no-op and the list is empty |

## Left out

- Express setup, CORS, JSON and cookie parsing, dotenv, console logging and `app.listen` (server/index.js:1-45, 271-274): process plumbing with no logic.
- `GET /api/auth/gmail/url` (server/index.js:48-64): it only returns what the library's `generateAuthUrl` builds from fixed options.
- `POST /api/admin/logout` (server/index.js:175-178): it only clears the cookie and touches no state.
- The shared `oauth2Client` and its per-request `setCredentials` (server/index.js:72, 207-211): the model runs one request at a time, so requests interleaving at an `await` are not modelled. That includes a record removed between the two scans of a sync. The model proves the second scan finds the same record, so the source's `userIndex !== -1` test always holds here.
- The `maxResults: 10` page size of the message listing: the listing's result is an input, and the model does not assume the library honours the limit.
- `jwt.sign`/`jwt.verify`, the one-hour token lifetime and the cookie's `secure` flag: library crypto and environment configuration. Verification is an input predicate and expiry is part of it.
- `Accounts.Expired`: a `null` expiry, which JavaScript would compare as 0, is not told apart from an absent one, which never compares as expired.
- Request parsing: a `code`, `email` or `secretKey` that is not a string (an array from a repeated query parameter, for example) is not modelled.
- Toaster's five-second auto-dismiss timer (src/components/ui/Toaster.tsx) and all React rendering.
- The dashboard's local copies of sync and revoke results (src/pages/AdminDashboard.tsx), the axios wrappers (src/services/api.ts), the user context with localStorage (src/context/UserContext.tsx) and `formatDate` (src/utils/formatters.ts). These are display code or wrappers.
- `Toasts.HookToast`: the fallback's `console.log` of the toast is not modelled.
- `RelativeTime.RoundedSeconds`: exact integer rounding stands in for the floating-point `Math.round(Math.abs(diff) / 1000)`. The two agree whenever the difference is below 2^43 seconds (about 278,000 years). Beyond that, near the ends of `Date`'s range, the float quotient can round across a half.
