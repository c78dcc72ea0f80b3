# Trakt integration of the TMDB addon, modelled in Dafny

This project models the Trakt integration of the TMDB addon. It has three parts, one module per source file:

- **`TraktLists`** (`trakt_lists.dfy`) models `getTraktWatchlist` and `getTraktRecommendations`.
  Both refuse a missing access token. They fetch one page of 20 items from a Trakt list. For each raw item they project out a tmdb id. Items without a truthy id are skipped. The rest are resolved through `getMeta`, and an item whose resolution throws is dropped. The records that survive keep list order.
  The two functions are modelled as imperative methods; the per-item loop (`ResolveItems`) is proved equal to the recursive functions `Metas` and `MetaCalls`. The methods also return the trace of external calls they made, so that "no request before the token check" and "`getMeta` is not called for skipped items" can be stated.
- **`TraktSession`** (`trakt_session.dfy`) models the OAuth 2.0 authorization-code helpers of the addon:
  - the redirect-URI rule;
  - the authorize URL of section 4.1.1 of RFC 6749;
  - the code exchange of section 4.1.3;
  - the refresh request of section 6.

  These are pure functions over an injected configuration record.
- **`TraktCatalogs`** (`trakt_catalogs.dfy`) models the configuration page's pure parts:
  - the `setCatalogs` merge updater and its constant table of four Trakt catalogs;
  - the logout filter and the clearing of the tokens;
  - the checks that an authorization code and a token response must pass before anything is stored.

  The React state the handlers change is modelled as a `Connection` value (two tokens and the catalog list). Each handler is a function from the old value to the new one.

Two helper modules support these. `Wrappers` holds `Option` and `Result`. `JsStrings` models JavaScript's `trim`, `startsWith`, `split`, `join` and query-parameter lookup.

External collaborators become inputs:

- The HTTP `get` becomes a function `ListRequest -> GetOutcome`.
- The HTTP `post` becomes a function `TokenRequest -> PostOutcome`.
- The browser `fetch` of the token route becomes a function `string -> FetchOutcome`, applied to the code.
- `getMeta` becomes a `Resolver`, a function returning `Result`, already unwrapped to its `meta` field.
- The environment becomes `TraktSession.Config`.
- `Math.random`'s state and `encodeURIComponent` become parameters.
- The message of the error the browser throws when a response body is read twice becomes a parameter (`bodyUsed`).

A few behaviours of the code are worth stating outright, since the model follows them exactly:

- Only one trailing `/` is stripped from the request host (`"h//"` gives `"h//configure"` with one slash removed).
- Any content type other than `"movie"` selects the `shows` segment and the `show` projection.
- The token exchange and the refresh return `response.data || response`: the response body when it is truthy, otherwise the whole response object.
- A `null` list item makes the projection throw inside the per-item `try`. It is dropped like a resolver failure.
- The merge filter compares the string keys `${id}-${type}`, while the update step compares `(id, type)` pairs. `StringKeyMatchesKey` proves that for the four Trakt catalogs the two agree, because their ids and types contain no `-`.

JavaScript truthiness is modelled explicitly:

- A string that may be absent is truthy when it is present and non-empty.
- A tmdb id is truthy when it is present and not `0`.
- The body of a token response is truthy according to a predicate passed in, since its type is left open.
- A list response's `data` is an array, which is always truthy, so an absent `data` stands for every falsy one.

## Model

| member | source | states |
|---|---|---|
| TraktLists.TypeSegment | addon/lib/getTraktLists.js:11 | the segment is `movies` exactly when the type is `"movie"`, and `shows` for every other type |
| TraktLists.RequestFor | addon/lib/getTraktLists.js:11-15 | the request carries the type's segment, the limit 20 and the caller's token; the page is not an input |
| TraktLists.RequestUrl | addon/lib/getTraktLists.js:15 | the URL is `https://api.trakt.tv/<list>/<segment>?limit=20&extended=full` for every type and token |
| TraktLists.MediaTmdb | addon/lib/getTraktLists.js:31-33 | `item.movie?.ids?.tmdb` (or `show`): the id is passed on exactly when the object and its `ids` are present, and it is the `tmdb` found there |
| TraktLists.ProjectTmdb | addon/lib/getTraktLists.js:28-34 | watchlist items give `movie.ids.tmdb` for movies and `show.ids.tmdb` otherwise; a missing link gives no id; a `null` item throws |
| TraktLists.ResolvableId | addon/lib/getTraktLists.js:28-36 | an id is passed on exactly when the projection succeeds with a present, non-zero id, and the id passed on is that projected id |
| TraktLists.Step | addon/lib/getTraktLists.js:26-42 | one loop iteration: an item is skipped exactly when its projection succeeds without a truthy id; it is dropped exactly when the projection throws or `getMeta` fails for the id passed on; when `getMeta` succeeds the item is kept with exactly the record it returned |
| TraktLists.Metas | addon/lib/getTraktLists.js:24-45 | the records of a list never outnumber its items |
| TraktLists.MetaCalls | addon/lib/getTraktLists.js:36-37 | there is at most one call per item, and every call is a `getMeta` call |
| TraktLists.MetasAppend | addon/lib/getTraktLists.js:26-43 | items are handled one at a time: the records of a concatenation are the concatenated records |
| TraktLists.MetaCallsAppend | addon/lib/getTraktLists.js:26-43 | the `getMeta` calls of a concatenation are the concatenated calls |
| TraktLists.ItemsOf | addon/lib/getTraktLists.js:23 | the items are `response.data`, or none when it is absent; its consequence is stated by `NoDataMeansNoMetas` |
| TraktLists.SyncResult | addon/lib/getTraktLists.js:5-49 | the call fails with the missing-token error exactly when the token is not truthy; otherwise it is the rethrown GET failure or `{metas}` |
| TraktLists.SyncTrace | addon/lib/getTraktLists.js:5-49 | no call at all exactly when the token is not truthy; otherwise the list GET comes first and every later call is a `getMeta` call |
| TraktLists.ResolveItems | addon/lib/getTraktLists.js:26-43 | the loop's records and `getMeta` calls are exactly `Metas` and `MetaCalls` of the items |
| TraktLists.FetchList | addon/lib/getTraktLists.js:5-49 | a missing token fails before any call; otherwise the first call is the list GET; the result and the call trace are `SyncResult` and `SyncTrace`, independent of the page |
| TraktLists.GetTraktWatchlist | addon/lib/getTraktLists.js:5-50 | the watchlist call is the shared pipeline with the nested `movie`/`show` projection |
| TraktLists.GetTraktRecommendations | addon/lib/getTraktLists.js:52-91 | the recommendations call is the shared pipeline with the flat `ids.tmdb` projection |
| TraktLists.SkippedItemIsInvisible | addon/lib/getTraktLists.js:36 | an item without a truthy id adds no record and no `getMeta` call, wherever it sits in the list |
| TraktLists.FailedItemIsIsolated | addon/lib/getTraktLists.js:26-43 | a resolver failure drops only that item's record; the calls for every later item still happen |
| TraktLists.ItemFailureKeepsTheRest | addon/lib/getTraktLists.js:26-45 | when item k is dropped, the call still succeeds, with exactly the records of the list without item k |
| TraktLists.KeptIndicesLength | addon/lib/getTraktLists.js:24-45 | there is one kept index per record |
| TraktLists.ShiftedIncreasing | addon/lib/getTraktLists.js:26 | shifting the kept indices of the remaining items keeps them increasing |
| TraktLists.KeptIndicesIncrease | addon/lib/getTraktLists.js:26 | the kept indices are item positions in strictly increasing order |
| TraktLists.KeptIndicesRecords | addon/lib/getTraktLists.js:36-38 | the j-th record is the resolution of the item at the j-th kept index |
| TraktLists.ShiftedContains | addon/lib/getTraktLists.js:26 | a kept index of the remaining items reappears shifted by one |
| TraktLists.KeptIndicesComplete | addon/lib/getTraktLists.js:36-38 | every item that resolves is at a kept index |
| TraktLists.MetasIsOrderedSubsequence | addon/lib/getTraktLists.js:24-45 | `metas` is an order-preserving subsequence of the items' resolved records, containing all of them |
| TraktLists.FetchFailureIsRethrown | addon/lib/getTraktLists.js:46-49 | a failed list fetch is rethrown with no partial result and no `getMeta` call |
| TraktLists.NoDataMeansNoMetas | addon/lib/getTraktLists.js:23 | a response without `data` yields `{metas: []}` after the single GET |
| TraktLists.WatchlistExample | addon/lib/getTraktLists.js:24-45 | the watchlist `[550, no id, 551]` with 550→A and 551→B gives `[A, B]` and calls `getMeta` for 550 and 551 only |
| TraktSession.StripTrailingSlash | addon/lib/getTraktSession.js:16 | exactly one trailing `/` is removed when there is one, and nothing otherwise |
| TraktSession.RedirectUri | addon/lib/getTraktSession.js:12-22 | with a truthy host, the result is the host less one `/` plus `/configure`; otherwise it is `TRAKT_REDIRECT_URI` if set, else `(HOST_NAME or http://localhost:1337)/configure` |
| TraktSession.RedirectUriFromHost | addon/lib/getTraktSession.js:14-18 | a host's redirect URI ends in `/configure`, its base is the host less at most one trailing `/`, and the configuration plays no part |
| TraktSession.RedirectUriSlashInsensitive | addon/lib/getTraktSession.js:16 | one trailing slash makes no difference, and a second one is kept |
| TraktSession.RedirectUriExample | addon/lib/getTraktSession.js:14-18 | `https://host.example/` gives `https://host.example/configure` |
| TraktSession.TraktAuthUrl | addon/lib/getTraktSession.js:24-35 | it fails exactly when the client id is unset; otherwise the URL starts with the authorize endpoint and the returned state and redirect URI are the inputs used |
| TraktSession.AuthQuery | addon/lib/getTraktSession.js:26-33 | the query string of the authorize URL; `AuthQueryIsJoin` and `AuthUrlRoundTrip` state what it contains |
| TraktSession.AuthQueryIsJoin | addon/lib/getTraktSession.js:32 | the query is the four `key=value` parameters joined with `&` |
| TraktSession.AuthUrlRoundTrip | addon/lib/getTraktSession.js:29-34 | parsing the authorize URL back gives `response_type=code`, the client id, the encoded redirect URI and the returned state, in that order |
| TraktSession.TokenBodySharedFields | addon/lib/getTraktSession.js:46-52 | both token requests send `client_id`, `client_secret`, `redirect_uri` and their own `grant_type` |
| TraktSession.TokenBodyCredential | addon/lib/getTraktSession.js:74-80 | the exchange sends `code` and no `refresh_token`; the refresh sends `refresh_token` and no `code` |
| TraktSession.TokenBody | addon/lib/getTraktSession.js:46-52 | the POST body of either grant, in the order written; its fields are stated by `TokenBodySharedFields` and `TokenBodyCredential`, and line 74-80 is the refresh variant |
| TraktSession.BuildTokenRequest | addon/lib/getTraktSession.js:38-43 | it fails exactly when the client id or secret is unset; the redirect URI is the supplied one when truthy, else the no-host default |
| TraktSession.Reply | addon/lib/getTraktSession.js:58-62 | a rejected POST becomes `{success:false, error}` with the error's message or the default, never empty; a resolved POST gives `data` when it is truthy, else the whole response |
| TraktSession.TraktAccessToken | addon/lib/getTraktSession.js:37-63 | the exchange throws only on missing credentials; otherwise it posts `grant_type=authorization_code` and returns the reply of the POST |
| TraktSession.RefreshTraktAccessToken | addon/lib/getTraktSession.js:65-91 | the refresh throws only on missing credentials; otherwise it posts `grant_type=refresh_token` and returns the reply of the POST |
| TraktSession.MissingCredentialsIssueNoPost | addon/lib/getTraktSession.js:38-40 | without both credentials, both calls fail whatever the transport would do |
| TraktSession.ExchangeHttpErrorIsReturned | addon/lib/getTraktSession.js:59-62 | a rejected exchange POST comes back as `{success:false, error: message}` rather than a thrown error |
| TraktCatalogs.TraktCatalogsEnabled | configure/src/integrations/trakt.tsx:54-83 | the four Trakt catalogs are enabled, shown on the home page, and have `trakt.` ids |
| TraktCatalogs.TraktKeysOfCatalogs | configure/src/integrations/trakt.tsx:54-83 | the four catalogs have the four distinct keys watchlist/recommendations × movie/series |
| TraktCatalogs.TraktCatalogsDashFree | configure/src/integrations/trakt.tsx:54-83 | no Trakt id or type contains `-` |
| TraktCatalogs.StringKey | configure/src/integrations/trakt.tsx:86-88 | the `${id}-${type}` key of an entry; `StringKeyMatchesKey` states when it agrees with the `(id, type)` pair |
| TraktCatalogs.DashJoinInjective | configure/src/integrations/trakt.tsx:86 | joining two dash-free strings with `-` is injective |
| TraktCatalogs.StringKeyMatchesKey | configure/src/integrations/trakt.tsx:86-94 | for a Trakt catalog, equal string keys means equal `(id, type)` |
| TraktCatalogs.FindByKey | configure/src/integrations/trakt.tsx:93-95 | `find` succeeds exactly when some candidate has the entry's `(id, type)`, and returns such a candidate |
| TraktCatalogs.FindTraktCatalog | configure/src/integrations/trakt.tsx:93-96 | the `find` over the Trakt table succeeds exactly for the four Trakt keys |
| TraktCatalogs.UpdateEntry | configure/src/integrations/trakt.tsx:92-100 | the map callback keeps the id, type, name and extra fields, and when it changes an entry it leaves it enabled and shown on the home page |
| TraktCatalogs.ExistingIds | configure/src/integrations/trakt.tsx:86 | every entry's `${id}-${type}` key is in the set |
| TraktCatalogs.UpdatedCatalogs | configure/src/integrations/trakt.tsx:92-100 | the update keeps the length and acts entry by entry |
| TraktCatalogs.NewCatalogs | configure/src/integrations/trakt.tsx:87-89 | a candidate is kept exactly when its string key is not among the existing ids |
| TraktCatalogs.ExistingIdsOfTraktCatalog | configure/src/integrations/trakt.tsx:86-88 | a Trakt catalog's string key is among the existing ids exactly when some entry has its `(id, type)` |
| TraktCatalogs.NewCatalogsAllAbsent | configure/src/integrations/trakt.tsx:87-89 | when no key exists yet, all candidates are appended in order |
| TraktCatalogs.NewCatalogsAllPresent | configure/src/integrations/trakt.tsx:87-89 | when every key exists, nothing is appended |
| TraktCatalogs.NewCatalogsKeys | configure/src/integrations/trakt.tsx:87-89 | the appended candidates number as many as their distinct keys |
| TraktCatalogs.NewCatalogsAppend | configure/src/integrations/trakt.tsx:87-89 | the candidate filter works entry by entry: filtering a concatenation is concatenating the filtered parts |
| TraktCatalogs.NewCatalogsSingle | configure/src/integrations/trakt.tsx:87-89 | one Trakt candidate is kept exactly when the list lacks its `(id, type)` |
| TraktCatalogs.MissingTraktCatalogs | configure/src/integrations/trakt.tsx:87-89 | the appended catalogs are Trakt table entries, at most four |
| TraktCatalogs.UpdateEntryByKey | configure/src/integrations/trakt.tsx:93-99 | an entry with a Trakt key gets `enabled = showInHome = true` and keeps every other field; any other entry is unchanged |
| TraktCatalogs.MissingTraktCatalogsAbsent | configure/src/integrations/trakt.tsx:86-89 | a Trakt catalog is appended exactly when the list lacks its `(id, type)` |
| TraktCatalogs.MissingTraktCatalogsCount | configure/src/integrations/trakt.tsx:86-89 | the number appended is the number of Trakt keys the list lacks |
| TraktCatalogs.MergeShape | configure/src/integrations/trakt.tsx:85-103 | the output is the updated list followed by the missing Trakt catalogs; non-Trakt entries are unchanged in place; Trakt-keyed entries keep every field but become enabled; the length grows by the number of absent keys |
| TraktCatalogs.MergeAppendsInDeclarationOrder | configure/src/integrations/trakt.tsx:54-103 | the appended catalogs are the four table entries in declaration order, each present exactly when the list lacked its key |
| TraktCatalogs.TraktCatalogOfKey | configure/src/integrations/trakt.tsx:54-83 | every Trakt key belongs to one of the four table entries |
| TraktCatalogs.MergeHasTraktKey | configure/src/integrations/trakt.tsx:85-103 | after a merge, a given Trakt key is present |
| TraktCatalogs.MergeHasTraktKeys | configure/src/integrations/trakt.tsx:85-103 | after a merge, all four Trakt keys are present |
| TraktCatalogs.MergeEnablesTraktEntries | configure/src/integrations/trakt.tsx:85-103 | after a merge, every Trakt-keyed entry is enabled and shown on the home page |
| TraktCatalogs.MergedListMissesNothing | configure/src/integrations/trakt.tsx:86-89 | merging a merged list appends nothing |
| TraktCatalogs.MergeTraktCatalogs | configure/src/integrations/trakt.tsx:85-103 | the `setCatalogs` updater keeps every entry and adds at most four; its shape is stated by `MergeShape` |
| TraktCatalogs.MergeIdempotent | configure/src/integrations/trakt.tsx:85-103 | merging twice equals merging once |
| TraktCatalogs.RemoveTraktCatalogs | configure/src/integrations/trakt.tsx:168 | exactly the entries whose id does not start with `trakt.` remain |
| TraktCatalogs.RemoveTraktCatalogsAppend | configure/src/integrations/trakt.tsx:168 | the filter works entry by entry, so the kept entries keep their order |
| TraktCatalogs.RemoveTraktCatalogsKeepsOthers | configure/src/integrations/trakt.tsx:168 | a list without `trakt.` entries is unchanged |
| TraktCatalogs.NonTraktEntriesUntouched | configure/src/integrations/trakt.tsx:92-100 | an entry outside the `trakt.` namespace is never modified by the merge |
| TraktCatalogs.RemoveThenMerge | configure/src/integrations/trakt.tsx:85-103 | remove-then-merge gives the non-`trakt.` entries in order, followed by exactly the four enabled Trakt catalogs |
| TraktCatalogs.NotOkMessage | configure/src/integrations/trakt.tsx:24-33 | as written: a JSON body shows its truthy `error`, else the default; a body that is not JSON shows the runtime's "body already used" error and never its text; no body shows the default; the message is never empty |
| TraktCatalogs.IntendedNotOkMessage | configure/src/integrations/trakt.tsx:24-33 | the evident intent: a JSON body shows its truthy `error`, else the default; a body that is not JSON shows its own text when that is not empty, else the default; no body shows the default |
| TraktCatalogs.NotOkMessageAgreesExceptOnText | configure/src/integrations/trakt.tsx:24-33 | the code as written and the intended version agree on JSON and empty bodies, and differ on every non-empty text body whose text is not the runtime's message |
| TraktCatalogs.NotOkTextNeverShown | configure/src/integrations/trakt.tsx:29-31 | a `Bad Gateway` text body: the intended message is `Bad Gateway`, the written code never shows it |
| TraktCatalogs.AcceptTokenData | configure/src/integrations/trakt.tsx:39-46 | a response is accepted exactly when it has no truthy `error`, has no `success === false`, and has a non-blank `access_token`; a rejection shows the truthy `error`, else for `success === false` the truthy `status_message` or the default, else `Received empty access token` |
| TraktCatalogs.IsBlankCode | configure/src/integrations/trakt.tsx:18 | `!code \|\| code.trim() === ''` holds exactly when every character of the code is one `trim` removes |
| TraktCatalogs.AcceptToken | configure/src/integrations/trakt.tsx:18-46 | a blank code is refused with `Invalid authorization code` before any fetch; a rejected fetch is refused with its own message; a non-ok response is refused with `NotOkMessage` of its body; an ok response is judged by `AcceptTokenData`; an accepted access token is never blank |
| TraktCatalogs.StoreTokens | configure/src/integrations/trakt.tsx:48-51 | after acceptance the access token is stored, the refresh token only when present (otherwise the old one stays), and the catalogs are merged |
| TraktCatalogs.HandleAccessToken | configure/src/integrations/trakt.tsx:14-103 | on refusal, nothing changes and the refusal message is shown; on acceptance, the state is `StoreTokens` of the accepted tokens and the stored access token is not blank |
| TraktCatalogs.HandleLogout | configure/src/integrations/trakt.tsx:163-168 | both tokens become `""`; the catalogs are the `trakt.`-filtered list, so exactly the `trakt.` entries are removed and the others keep their order |
| TraktCatalogs.BlankCodeIssuesNoRequest | configure/src/integrations/trakt.tsx:18-20 | a blank code gives the same outcome whatever the token route would answer |
| TraktCatalogs.LogoutThenConnect | configure/src/integrations/trakt.tsx:163-168 | disconnecting and reconnecting leaves the non-Trakt entries followed by the four Trakt catalogs |
| TraktCatalogs.ConnectTwice | configure/src/integrations/trakt.tsx:85-103 | a second successful connection leaves the catalog list as the first made it |

## Left out

- The HTTP transport, the request headers (`Authorization`, `trakt-api-version`, `trakt-api-key`, `Content-Type`) and JSON encoding are left out. Each call is an abstract outcome value; the bytes on the wire are not modelled.
- `getMeta` internals are not part of this model. It is an uninterpreted resolver, and whatever it throws is a `Failure`.
- `Math.random` state generation and `encodeURIComponent` are inputs. The returned `state` is never checked on callback, and the model adds no such check.
- Reading `process.env` and `.env` is left out. The four variables are fields of `TraktSession.Config`.
- `offset` at addon/lib/getTraktLists.js:13 and :60 is computed and never used, so it is not modelled. The `genre` argument is also unused.
- `console.error` logging, `toast`, `window.history`/`window.location`, React rendering and the `isLoading` flag are UI side effects and are left out.
- `handleLogin` (configure/src/integrations/trakt.tsx:128-161) is left out. It fetches the auth URL, rejects an answer without an `authUrl` (lines 150-152), shows the error of any failure, and otherwise navigates the browser to the URL; all of it is browser I/O and UI state.
- `useEffect`'s reading of the `code` query parameter is left out. The model starts from the code it passes on.
- Async sequencing is left out. Items are resolved one at a time in list order, as `getTraktWatchlist` and `getTraktRecommendations` await them.
- The body of a non-ok token-route response is taken as already classified: JSON with an optional `error`, a body `json()` cannot read fields from (not JSON, or the JSON `null`), or no body. Parsing is not modelled, and the text of the runtime's "body already used" error is an input.
- Fields of the token response that hold a non-string value are not modelled. Each field the page reads is a string or absent (or a boolean for `success`).
- A POST rejected with a `null` or `undefined` reason is not modelled: `err.message` at addon/lib/getTraktSession.js:61 and :89 would then throw inside the `catch`, and the call would reject instead of returning `{success: false, error}`. `PostRejected` stands for a rejection with an error object.
- ItemsOf: `data` is an array or absent; `None` stands for every absent or falsy `data`, and a truthy `data` that is not an array is not modelled.
- A tmdb id is an integer. Other falsy values such as `NaN` or `""` are not modelled.

## Findings

| source | as written | input that shows it | evidently intended | confidence | as-written member | corrected member |
|---|---|---|---|---|---|---|
| configure/src/integrations/trakt.tsx:26-31 | `response.json()` consumes the body, so the fallback `response.text()` in its `catch` rejects with a "body already used" error that escapes to the outer `catch` | a non-ok response whose body is the text `Bad Gateway` | the page shows the body's text (`Bad Gateway`), or the default when it is empty | high, not executed | TraktCatalogs.NotOkMessage (with TraktCatalogs.NotOkTextNeverShown) | TraktCatalogs.IntendedNotOkMessage |

The handler model (`AcceptToken`, `HandleAccessToken`) keeps the behaviour as written, so that it describes what the page does; `NotOkMessageAgreesExceptOnText` shows that the corrected message differs from it only for bodies that are not JSON.
