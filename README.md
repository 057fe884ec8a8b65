# Planet catalogue client: a Dafny model

This project models the client-side logic of a small single-page app. The app signs a user in against a mock credential API. It then lists planets page by page or by search, shows one planet with the films it appears in, and guards its pages behind the session. What is modelled:

- **Session store** (`AuthStore`, from `src/store/useAuthStore.ts`): the three fields `token`, `user` and `isAuthenticated`, and the `login` and `logout` transitions. `Store` is a class whose methods overwrite the fields. It keeps a ghost history of transitions, so every reachable state is known to satisfy "authenticated exactly when a token is held".
- **Route guard** (`PrivateRoute`): admit only when `isAuthenticated` holds and the token is a non-empty string. Otherwise redirect to `/login`, replacing the history entry.
- **Request gateway** (`Gateway`, from `src/util/axios.ts`): the interceptor reads the token when the request leaves. It sets `Authorization: Bearer <token>` in place on the request configuration, and only when the token is non-empty.
- **Fetch hook** (`FetchHook`, from `src/hooks/useFetch.ts`): a `Hook` object with `data`, `loading` and `error`. A fetch starts by setting `loading` and clearing `error`; `data` is kept. A status-200 response stores the payload. Any other status stores "Request failed with status N". A rejection stores its message, or "An unknown error occurred" when that message is empty. `loading` is always cleared at the end. An empty URL means no fetch. When two fetches of one hook are in flight at once, as on the search page, a success does not clear the other fetch's error, so a failure's message stays whichever settles last.
- **Planet list** (`Landing`): `extractPlanetId`, the page count `ceil(count / 10)`, and the choice between the search state and the paged state. Also the search effect (search mode on, or search mode off with the page reset to 1) and the two request URLs.
- **Planet detail** (`ProductDetails`): `splitByComma`, the planet URL, and the films effect. That effect resets the film state, joins the parallel film fetches, and keeps either every film in order or none of them plus one failure's message. It also covers `isLoadingAny`.
- **Sign-in form** (`Login`): blank-field validation after trimming, the endpoint chosen by mode, and the error message with its fixed fallback. It also covers the `loading` and `error` updates around the reply, the call to `login`, and the mode toggle.

Network replies are parameters. `Outcome` is what the client's `get` settles with, `FilmFetch` what `fetch(url)` settles with (given as a function of the URL), and `AuthReply` the reply to the credentials post. React effects are methods that the caller runs when a dependency changes.

Three behaviours of the code are easy to miss; the model follows them:
- A failed fetch keeps the earlier `data`. A starting fetch does not clear it either (useFetch.ts:12-20).
- The films effect runs for any `films` array, including an empty one, because an empty array is truthy (ProductDetails.tsx:92).
- The guard also refuses an empty-string token, not only a null one (PrivateRoute.tsx:8).

## Model

| member | source | states |
|---|---|---|
| Text.Trim | src/pages/auth/Login.tsx:49 | `trim`: no whitespace at either end of the result, never longer than the input; it is empty exactly when the input is all whitespace |
| Text.TrimSlice | src/pages/auth/Login.tsx:49 | the trimmed string is a contiguous piece of the input, and everything cut away before and after it is whitespace |
| Text.TrimKeepsChars | src/pages/landing/ProductDetails.tsx:75 | trimming adds no character: every character of the result occurs in the input |
| Text.TrimKeepsTrimmed | src/pages/landing/ProductDetails.tsx:75 | trimming a string without whitespace at either end leaves it unchanged |
| Text.TrimAfterSpace | src/pages/landing/ProductDetails.tsx:75 | a single leading space before a trimmed non-empty item is removed by `trim` |
| Text.Split | src/pages/landing/ProductDetails.tsx:74 | `split` on one character: there is always at least one piece |
| Text.SplitPiecesFree | src/pages/landing/ProductDetails.tsx:74 | no piece of a split contains the separator |
| Text.JoinSplit | src/pages/landing/Landing.tsx:84 | joining the pieces of a split with the separator gives back the original string |
| Text.SplitJoin | src/pages/landing/ProductDetails.tsx:74 | splitting a join of separator-free pieces gives back the pieces |
| Text.SplitWithoutSep | src/pages/landing/Landing.tsx:84 | a string without the separator splits into itself alone |
| Text.SplitAround | src/pages/landing/Landing.tsx:84 | splitting `a + sep + b` is splitting `a` and `b` separately |
| Text.SplitTrailingSep | src/pages/landing/Landing.tsx:84 | a trailing separator adds exactly one empty piece |
| Text.DropEmpty | src/pages/landing/Landing.tsx:84 | `filter(Boolean)` on strings: only non-empty pieces remain, each taken from the input |
| Text.DropEmptyAppend | src/pages/landing/ProductDetails.tsx:76 | filtering distributes over concatenation, so order is kept |
| Text.DropEmptyKeepsNonEmpty | src/pages/landing/ProductDetails.tsx:76 | filtering a list with no empty strings changes nothing |
| Text.DropEmptySplitIsEmpty | src/pages/landing/Landing.tsx:84-85 | no non-empty piece remains exactly when the string is made of separators only |
| Text.NatToString | src/pages/landing/Landing.tsx:50 | decimal rendering of a number in a template literal: a non-empty string of digits |
| Text.ParseNatToString | src/hooks/useFetch.ts:17 | reading the decimal rendering back gives the number |
| Text.NatToStringInjective | src/pages/landing/Landing.tsx:50 | different numbers render differently |
| AuthStore.Initial | src/store/useAuthStore.ts:21-35 | the store starts with no token, no user and not authenticated, which satisfies the invariant and holds no token |
| AuthStore.Apply | src/store/useAuthStore.ts:23-34 | `login` gives token and user from its arguments and authenticated; `logout` gives the initial state; both keep the invariant |
| AuthStore.ReachableConsistent | src/store/useAuthStore.ts:21-35 | every state reachable from the initial one by login/logout is authenticated exactly when it holds a token |
| AuthStore.ApplyForgetsPrior | src/store/useAuthStore.ts:23-28 | a transition's result does not depend on the prior state: a second login overwrites every field |
| AuthStore.RunLastDecides | src/store/useAuthStore.ts:21-35 | after any non-empty history, the state is that of its last transition applied to the initial state |
| AuthStore.SignOutFacts | src/store/useAuthStore.ts:29-34 | logout is idempotent, and login then logout gives exactly the initial state |
| AuthStore.Store.constructor | src/store/useAuthStore.ts:21-35 | the store starts with no token, no user, not authenticated, and an empty history |
| AuthStore.Store.Login | src/store/useAuthStore.ts:23-28 | sets token, user and the flag, and records the transition |
| AuthStore.Store.Logout | src/store/useAuthStore.ts:29-34 | clears all three fields and records the transition |
| AuthStore.Store.StoreConsistent | src/store/useAuthStore.ts:21-35 | every store is authenticated exactly when it holds a token |
| PrivateRoute.Guard | src/routes/PrivateRoute.tsx:8-11 | admits exactly when authenticated with a non-empty token; every refusal is a replacing redirect to /login |
| PrivateRoute.EmptyTokenRejected | src/routes/PrivateRoute.tsx:8 | an authenticated session with an empty token is still redirected |
| PrivateRoute.GuardAfterSignOut | src/routes/PrivateRoute.tsx:8-9 | after logout the guard always redirects |
| PrivateRoute.GuardAfterSignIn | src/routes/PrivateRoute.tsx:8-11 | after login with a non-empty token the guard admits |
| PrivateRoute.GuardOnReachable | src/routes/PrivateRoute.tsx:8-11 | on reachable states the guard admits exactly when a non-empty token is held |
| Gateway.WithBearer | src/util/axios.ts:11-15 | with a non-empty token the Authorization header is "Bearer " + token; otherwise the headers are unchanged; no other header changes |
| Gateway.BearerRoundTrip | src/util/axios.ts:13 | the header value read back after the "Bearer " prefix is the token |
| Gateway.WithBearerIdempotent | src/util/axios.ts:12-14 | intercepting twice equals intercepting once, because the header is overwritten |
| Gateway.NoHeaderAfterSignOut | src/util/axios.ts:11-12 | with the token of a logged-out session no header is added |
| Gateway.Intercept | src/util/axios.ts:9-16 | changes the configuration in place, sets only its headers from the token read now, and returns the same object |
| Gateway.RequestAfterLogout | src/util/axios.ts:11-14 | a request sent after logout leaves with its headers untouched |
| FetchHook.StatusError | src/hooks/useFetch.ts:16-18 | the message for a non-200 response starts with the fixed text, and the status can be read back from it |
| FetchHook.FailureMessage | src/hooks/useFetch.ts:17-22 | a failed fetch's error is never empty: the status message for a response, the rejection's message, or the unknown-error fallback when that message is empty |
| FetchHook.Fetched | src/hooks/useFetch.ts:10-26 | after a fetch, loading is false; the error is empty exactly on status 200; the data becomes the payload on success and is kept on failure; the status message, the rejection message, or the unknown-error fallback otherwise |
| FetchHook.Started | src/hooks/useFetch.ts:12-13 | a started fetch is loading with the error cleared and the data kept |
| FetchHook.Settled | src/hooks/useFetch.ts:14-25 | an arriving outcome sets the data on success and leaves the error as it is; on failure it sets the error and keeps the data; loading is cleared |
| FetchHook.FetchedIsStartThenSettle | src/hooks/useFetch.ts:10-26 | one complete fetch is its start followed by its settlement |
| FetchHook.Overlapped | src/hooks/useFetch.ts:10-26 | two fetches that both start before either settles: the error is empty only when both succeed, a failure's message survives the other's success, and the data comes from the last success |
| FetchHook.OverlapKeepsFailure | src/hooks/useFetch.ts:12-22 | with one failing and one succeeding fetch in flight together, the failure's message stays in either settle order, unlike two fetches run one after the other |
| FetchHook.FetchedTwice | src/hooks/useFetch.ts:12-25 | of two fetches, only the second decides the error, and a failed second keeps the first's data |
| FetchHook.Hook.constructor | src/hooks/useFetch.ts:5-30 | starts with no data, not loading and no error, then fetches on mount unless the URL is empty |
| FetchHook.Hook.Idle | src/hooks/useFetch.ts:28-30 | a hook bound to the empty URL stays in the initial state and makes no request |
| FetchHook.Hook.Start | src/hooks/useFetch.ts:12-13 | the hook enters the started state: loading set, error cleared, data kept |
| FetchHook.Hook.Settle | src/hooks/useFetch.ts:14-25 | the hook applies the outcome as `Settled` does: status 200 stores the payload, anything else its error; loading cleared |
| FetchHook.Hook.Refetch | src/hooks/useFetch.ts:10-26 | a whole fetch moves the state as `Fetched` says |
| FetchHook.Hook.Rebind | src/hooks/useFetch.ts:28-30 | the hook is bound to the new address with its state untouched, and reports that the effect fetches exactly when the address changed to a non-empty one |
| FetchHook.Hook.SetUrl | src/hooks/useFetch.ts:28-30 | a fetch happens exactly when the URL changed to a non-empty one |
| Landing.PageCount | src/pages/landing/Landing.tsx:67-69 | zero pages for no items; otherwise (pages - 1) * 10 < count <= pages * 10 |
| Landing.PageCountOf95 | src/pages/landing/Landing.tsx:69 | 95 items make 10 pages |
| Landing.TotalCount | src/pages/landing/Landing.tsx:67-69 | the paged data's count, or 0: the page's count when there is one; a positive total always is that count |
| Landing.Results | src/pages/landing/Landing.tsx:64-66 | the data's results, or none: the page's planets when it has a list; any planet shown comes from that list |
| Landing.SelectView | src/pages/landing/Landing.tsx:62-69 | loading, error and items come from the search state when searching and from the paged state otherwise; a search is one page; the pager shows only when browsing more than one page |
| Landing.PagerShownIff | src/pages/landing/Landing.tsx:167 | the pager is shown exactly when not searching and the count exceeds 10 |
| Landing.SearchUrl | src/pages/landing/Landing.tsx:57-59 | the search URL is empty (no fetch) exactly when the text is empty, and otherwise is "/planets/?search=" followed by the text as typed |
| Landing.PageUrl | src/pages/landing/Landing.tsx:50 | the listing address is the fixed prefix followed by the page number, which can be read back |
| Landing.PageUrlInjective | src/pages/landing/Landing.tsx:50 | different pages give different URLs, so every page change refetches |
| Landing.SearchUrlInjective | src/pages/landing/Landing.tsx:57-59 | different search texts give different URLs |
| Landing.ExtractPlanetId | src/pages/landing/Landing.tsx:83-86 | the id is non-empty and has no '/'; there is none exactly when the URL is slashes only |
| Landing.ExtractIgnoresTrailingSlash | src/pages/landing/Landing.tsx:84-85 | a trailing slash does not change the id |
| Landing.ExtractFromResourceUrl | src/pages/landing/Landing.tsx:83-86 | the id of `<base>/<id>/` is `id` |
| Landing.DetailPath | src/pages/landing/Landing.tsx:146-150 | a row's click goes to one path segment under /products/: the extracted id, or "undefined" when there is none |
| Landing.DetailPathOfResourceUrl | src/pages/landing/Landing.tsx:146-150 | a row with URL `<base>/<id>/` navigates to /products/id |
| Landing.ListPage.constructor | src/pages/landing/Landing.tsx:40-59 | page 1, no search, the first page fetched, the search hook idle |
| Landing.ListPage.ChangePage | src/pages/landing/Landing.tsx:169 | sets the page and refetches the listing exactly when the page differs |
| Landing.ListPage.ChangeSearch | src/pages/landing/Landing.tsx:72-80 | non-empty new text: search mode on, and the search hook ends in the `Overlapped` state of the URL-change fetch and the refetch, in either settle order; empty: search mode off, page 1, listing refetched if the page changed; unchanged text: nothing |
| Landing.ListPage.SearchViewSettled | src/pages/landing/Landing.tsx:62-69 | in search mode with the search settled, the view shows its results, not loading, as one page without a pager |
| ProductDetails.FilmOk | src/pages/landing/ProductDetails.tsx:100 | `res.ok`: a response is ok exactly when its status is in 200-299; a network failure never is |
| ProductDetails.FilmError | src/pages/landing/ProductDetails.tsx:101 | a response that is not ok rejects with "Film fetch failed: " followed by its status, which can be read back; a network failure keeps its own message |
| ProductDetails.JoinFilms | src/pages/landing/ProductDetails.tsx:97-108 | all films in address order exactly when every fetch succeeds; otherwise the "Film fetch failed: N" or network message of a failing fetch, and no films |
| ProductDetails.OneFailureSpoilsAll | src/pages/landing/ProductDetails.tsx:97-108 | one failing fetch among any number makes the whole join fail |
| ProductDetails.PlanetUrl | src/pages/landing/ProductDetails.tsx:64 | no fetch without a route id; otherwise /planets/ + id |
| ProductDetails.SplitByComma | src/pages/landing/ProductDetails.tsx:72-76 | nothing for a missing field; otherwise items that are non-empty, trimmed and free of commas |
| ProductDetails.SplitByCommaOfJoined | src/pages/landing/ProductDetails.tsx:72-76 | a ", "-joined list of such items splits back into exactly those items, in order |
| ProductDetails.DetailPage.constructor | src/pages/landing/ProductDetails.tsx:55-110 | the planet is fetched on mount; when it brings a films list the film state is the join's outcome; nothing is loading afterwards |
| ProductDetails.DetailPage.ResetFilms | src/pages/landing/ProductDetails.tsx:93-95 | no films, loading, no error |
| ProductDetails.DetailPage.SettleFilms | src/pages/landing/ProductDetails.tsx:107-109 | on success the films are the joined list; on failure the error is the join's message; loading cleared |
| ProductDetails.DetailPage.IsLoadingAny | src/pages/landing/ProductDetails.tsx:112 | the loading overlay shows exactly while the planet or the films are loading |
| ProductDetails.DetailPage.FilmsEffect | src/pages/landing/ProductDetails.tsx:91-110 | untouched without a planet or films list; otherwise all films with no error, or no films with the failure message, and `isLoadingAny` equals the planet's loading |
| ProductDetails.DetailPage.ChangeProduct | src/pages/landing/ProductDetails.tsx:64-110 | a new id refetches the planet; only a planet that arrives reruns the films effect; a failed fetch keeps the previous planet and films, and so does a new planet without a films list |
| Login.Endpoint | src/pages/auth/Login.tsx:56-58 | the register URL exactly when registering, the login URL otherwise |
| Login.FailureMessage | src/pages/auth/Login.tsx:21-25 | the server's `error` field when non-empty, the fixed fallback otherwise; never empty |
| Login.MissingCredentials | src/pages/auth/Login.tsx:49 | a submission is refused for missing credentials exactly when the email or the password is whitespace only |
| Login.RedirectWhenSignedIn | src/pages/auth/Login.tsx:40-42 | an authenticated visitor is sent to "/" and nobody else is |
| Login.EmptyTokenBounces | src/pages/auth/Login.tsx:40-42 | after a sign-in with an empty token the sign-in page sends the visitor home while the guard sends them back to /login |
| Login.LoginForm.constructor | src/pages/auth/Login.tsx:33-37 | sign-in mode, the preset credentials, not loading, no error |
| Login.LoginForm.EditEmail | src/pages/auth/Login.tsx:79 | only the email changes |
| Login.LoginForm.EditPassword | src/pages/auth/Login.tsx:88 | only the password changes |
| Login.LoginForm.ToggleMode | src/pages/auth/Login.tsx:104 | flips the mode and nothing else |
| Login.LoginForm.BeginSubmit | src/pages/auth/Login.tsx:45-47 | while a submission is pending the error is cleared and loading is true; the fields and mode are unchanged |
| Login.LoginForm.FinishSubmit | src/pages/auth/Login.tsx:49-68 | blank fields: the required message, no request, no login; otherwise the request goes to the mode's endpoint; acceptance logs in with the submitted email, keeps the cleared error and goes home; refusal shows the mapped message; loading false on every path |
| Login.ToggleTwice | src/pages/auth/Login.tsx:104 | two toggles restore the mode |
| Login.SignInScenario | src/pages/auth/Login.tsx:60-62 | from a fresh store the guard redirects; after an accepted submission with a non-empty token it admits |

## Left out

- Rendering: JSX, Mantine components and the style objects. They are presentation only. So are the navbar, whose `logout(); navigate("/")` is the store's `Logout`, and the route table and mounting in `App.tsx` and `main.tsx`.
- Persistence: zustand's `persist` writes the session to local storage under "auth-storage" and restores it at start. This is storage I/O. A restored session is whatever an earlier run saved.
- HTTP: axios and `fetch` are not modelled. Their results are parameters. Axios itself rejects statuses outside 200-299 with its own message, so such replies reach the hook as `Rejected`. The fixed base address `https://swapi.dev/api` is not modelled: joining it to relative paths is library behaviour, and the interceptor leaves the path alone.
- The 500 ms debounce: the model sees only the debounced text.
- The route parameter: the router's parsing of `/products/:productId` is a library concern, so the id is an input.
- Surface-water parsing with `Number` and `isNaN` (ProductDetails.tsx:82-88): floating-point string parsing.
- A JSON body that fails to parse (`res.json()`) and a success reply without a `token` field: the model's replies always carry them.
- Landing.ListPage.ChangeSearch: the two overlapping search fetches are modelled in every settle order, but a reply that arrives after a later page or search change is not: such stale replies are taken to have settled before the next change.
- ProductDetails.JoinFilms: reports the first failure in address order. `Promise.all` reports the first rejection in time, which depends on event-loop scheduling.
- ProductDetails.DetailPage.ChangeProduct: requires that the previous film join has settled before the route id changes. In the source a join still pending for the old planet is not cancelled, and when it settles it can overwrite the new planet's `films`, `filmsError` and `filmsLoading`; those stale results are not modelled.
- Landing.SearchUrl: the text is put into the URL as it is, with no percent-encoding, as the source does. How the browser then encodes it is not modelled.
