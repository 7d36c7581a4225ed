# Crowdin SDK authorization activity, modelled in Dafny

This project models `AuthActivity`, the Android activity of the Crowdin
mobile SDK that logs a user in with the OAuth 2.0 authorization-code grant
(section 4.1 of RFC 6749). The activity does the following:

- It opens the Crowdin authorization page in a browser, at most once per instance, through a counter gate.
- It receives the redirect carrying the authorization `code` and exchanges the code for a token.
- On success it saves the session and asks for the distribution info.
- After the distribution info it may open a real-time connection and then loads the translations.
- If the distribution request fails, it rolls the session back.
- Every path ends in one permission-then-finish step.

The project has five files.

- `wrappers.dfy` defines `Option`.
- `auth_url.dfy` (module `AuthUrl`) is the pure part: the authorization URL the activity builds, and the percent-encoding that `Uri.Builder.appendQueryParameter` applies to the `domain` value. Beside them it defines an independent percent-decoder and query-string reader. It proves that reading the built URL back yields exactly the intended parameters, and that decoding inverts encoding.
- `auth_flow.dfy` (module `AuthFlow`) gives every handler as a transition function on a `Flow` snapshot. A `Flow` holds the activity's fields, the session store's content and the trace of host actions performed so far: pages opened, messages, token exchanges, saves, distribution requests, real-time connections, translation loads, permission requests and finish. Any sequence of handler calls is a `Run`. The module proves these for every run from launch: the invariant, the once-only gate, the session bookkeeping and the well-formedness of every token request. It also proves the concrete login scenarios.
- `auth_runs.dfy` (module `AuthRuns`) restricts runs to those the platform can deliver. In such a run a token response answers a pending exchange, and a distribution callback answers a request that was made, at most once. The module counts requests and responses in the trace and proves, for every such run, that responses never outnumber requests. It also proves that the token request matches the authorization URL that was opened. Finally, it holds the guarded variant of `handleCode` from "## Findings".
- `auth_activity.dfy` (module `AuthActivityModel`) is the activity as an object, `AuthActivity`, whose methods update its fields and a shared `SessionStore` in place.
  - Each handler method is proved to reach exactly the state its `AuthFlow` function computes, and to keep the invariant.
  - `ReloadConfig` and `GetDistributionInfo` are steps inside handlers, with no `AuthFlow` function of their own. Each states its new state directly.
  - `RequestPermission` keeps the invariant whenever it held before the call.

Inputs from the platform and the SDK are parameters:

- the result of `Crowdin.getAuthConfig()`;
- whether `checkSelfPermission` reports the storage permission as granted;
- the redirect's `code` query parameter;
- the token response;
- which distribution callback fires.

`Crowdin.isAuthorized()` is modelled as "the session store holds an `AuthInfo`".

## Model

| member | source | states |
|---|---|---|
| AuthFlow.Launch | crowdin/src/main/java/com/crowdin/platform/auth/AuthActivity.kt:23-47 | A fresh instance keeps the launching `type` extra and starts with counter 0, no event, unassigned credentials, no domain and no host action yet. |
| AuthFlow.PermissionEffects | crowdin/src/main/java/com/crowdin/platform/auth/AuthActivity.kt:156-168 | The permission step is one action. It is `Finish` exactly when permission is granted; otherwise it is a request for READ_EXTERNAL_STORAGE with request code 1330. |
| AuthFlow.RequestPermission | crowdin/src/main/java/com/crowdin/platform/auth/AuthActivity.kt:156-168 | The permission step changes nothing but the trace: no counter, session or credential change. |
| AuthFlow.OnRequestPermissionsResult | crowdin/src/main/java/com/crowdin/platform/auth/AuthActivity.kt:96-105 | Whatever the request code, the activity finishes and nothing else changes. |
| AuthFlow.RequestAuthorization | crowdin/src/main/java/com/crowdin/platform/auth/AuthActivity.kt:70-94 | The event and the credentials are always reloaded. A missing config gives empty strings and no domain. When the counter is not exactly 1, exactly one page is opened at the built URL and the counter grows by one. When it is 1, nothing opens, the counter stays and the permission step follows. |
| AuthFlow.OnCreate | crowdin/src/main/java/com/crowdin/platform/auth/AuthActivity.kt:57-68 | An authorized session gets a real-time connection and then the permission step, with nothing else changed. Otherwise the result is that of the authorization request. |
| AuthFlow.HandleCode | crowdin/src/main/java/com/crowdin/platform/auth/AuthActivity.kt:107-133 | An empty code gives "Not authorized." and the permission step. A non-empty code gives exactly one token exchange with grant type `authorization_code`, the stored credentials, redirect `crowdintest://`, the code and the stored domain. If the credentials were never assigned, the exchange is instead a failed property access. Only the trace changes. |
| AuthFlow.TokenRequestFields | crowdin/src/main/java/com/crowdin/platform/auth/AuthActivity.kt:113-116 | A token request exists exactly when both credentials are assigned. It then carries the grant type `authorization_code`, the stored client id and secret, the redirect `crowdintest://` and the given code. |
| AuthFlow.OnNewIntent | crowdin/src/main/java/com/crowdin/platform/auth/AuthActivity.kt:50-55 | A missing `code` parameter behaves exactly like the empty code. A present one is handed to code handling unchanged. |
| AuthFlow.OnTokenResponse | crowdin/src/main/java/com/crowdin/platform/auth/AuthActivity.kt:119-127 | Only a successful status with a body saves the session, leaving it authorized, and requests the distribution info with the current event captured. Every other response gives "Not authenticated." and the permission step and saves nothing. |
| AuthFlow.OnDistributionResponse | crowdin/src/main/java/com/crowdin/platform/auth/AuthActivity.kt:137-143 | A real-time connection is made only for the event `realtime_update`. Then come the permission step and translation loading, in that order. Nothing but the trace changes. |
| AuthFlow.OnDistributionError | crowdin/src/main/java/com/crowdin/platform/auth/AuthActivity.kt:145-152 | The session is cleared so the activity is no longer authorized. The permission step follows and no translations load. |
| AuthFlow.StepKeepsInvariant | crowdin/src/main/java/com/crowdin/platform/auth/AuthActivity.kt:50-168 | Every handler preserves three facts. First, the counter is 0 or 1 and equals the number of pages opened. Second, the store holds what the latest save put there. Third, every exchange is well formed. |
| AuthFlow.RunKeepsInvariant | crowdin/src/main/java/com/crowdin/platform/auth/AuthActivity.kt:50-168 | The invariant holds after any sequence of handler calls. |
| AuthFlow.AtMostOneAuthorizationPage | crowdin/src/main/java/com/crowdin/platform/auth/AuthActivity.kt:78-93 | From launch, whatever the order and number of handler calls, at most one authorization page is ever opened and the counter stays 0 or 1. The session is always the latest saved value, and every token request uses the code grant, the fixed redirect URI and a non-empty code. |
| AuthFlow.AuthorizedLaunch | crowdin/src/main/java/com/crowdin/platform/auth/AuthActivity.kt:62-64 | Launched with a session, onCreate performs only the real-time connection and the permission step. No page opens and the counter and session are unchanged. |
| AuthFlow.SecondAuthorizationOpensNothing | crowdin/src/main/java/com/crowdin/platform/auth/AuthActivity.kt:78-93 | Two authorization requests on a fresh instance open one page, built from the first config, and then reach the permission step. The counter ends at 1. |
| AuthFlow.PermissionStepTwice | crowdin/src/main/java/com/crowdin/platform/auth/AuthActivity.kt:156-168 | Repeated permission steps open no page, exchange nothing, save nothing and leave the counter and the session alone. |
| AuthFlow.EmptyCodeScenario | crowdin/src/main/java/com/crowdin/platform/auth/AuthActivity.kt:50-55 | A redirect without a usable code yields the one page, "Not authorized." and the permission step. There is no exchange and no session. |
| AuthFlow.RejectedExchangeScenario | crowdin/src/main/java/com/crowdin/platform/auth/AuthActivity.kt:107-127 | A refused exchange for code `abc123` yields page, exchange, "Not authenticated." and the permission step, and no session. |
| AuthFlow.LoginUpToDistribution | crowdin/src/main/java/com/crowdin/platform/auth/AuthActivity.kt:57-121 | A login launched for `realtime_update` with an accepted code reaches the distribution request with the session saved, the counter at 1 and the credentials and domain from the config. |
| AuthFlow.RealTimeLoginScenario | crowdin/src/main/java/com/crowdin/platform/auth/AuthActivity.kt:135-143 | A full real-time login ends with the session kept, a real-time connection, the permission step and the translation load, in that order. Exactly one page was opened and the counter is 1. |
| AuthFlow.RealTimeLoginHandlers | crowdin/src/main/java/com/crowdin/platform/auth/AuthActivity.kt:50-143 | The same login as the four handler calls, the distribution callback carrying the event stored at that moment: the same trace, the session kept, exactly one page opened. |
| AuthFlow.RolledBackLoginScenario | crowdin/src/main/java/com/crowdin/platform/auth/AuthActivity.kt:145-152 | The same login whose distribution request fails ends with the session cleared and no translation load. |
| AuthUrl.AuthorizationUrlSplits | crowdin/src/main/java/com/crowdin/platform/auth/AuthActivity.kt:79-87 | The first `?` of the built URL ends the endpoint `https://accounts.crowdin.com/oauth/authorize`, and everything after it is the query. |
| AuthUrl.QueryHasNoFragment | crowdin/src/main/java/com/crowdin/platform/auth/AuthActivity.kt:84-86 | A `#` can enter the query only through the client id, which is inserted unescaped. The fixed parameters and the encoded domain never contain one. |
| AuthUrl.QueryOfAuthorizationUrl | crowdin/src/main/java/com/crowdin/platform/auth/AuthActivity.kt:79-88 | A URI parser takes the query to be the text after the first `?` and before the first `#`. Read that way, the built URL yields exactly the query that was built, provided the client id has no `#`. |
| AuthUrl.AuthorizationUrlParams | crowdin/src/main/java/com/crowdin/platform/auth/AuthActivity.kt:79-87 | Read back, the query is exactly `client_id`, `response_type=code`, `scope=project` and `redirect_uri=crowdintest://`, then one `domain` pair. The `domain` key is present if and only if an organization is configured, and its value decodes to the organization name. |
| AuthUrl.PlainOrganizationDomain | crowdin/src/main/java/com/crowdin/platform/auth/AuthActivity.kt:86 | An organization name made only of unreserved characters, such as `acme`, appears verbatim as the fifth and last parameter, `domain=<name>`. |
| AuthUrl.Encode | crowdin/src/main/java/com/crowdin/platform/auth/AuthActivity.kt:86 | The encoded value consists only of unreserved characters and `%`. |
| AuthUrl.EncodeHasNoDelimiters | crowdin/src/main/java/com/crowdin/platform/auth/AuthActivity.kt:86 | An encoded value never contains `&`, `=` or `#`, so it cannot break the query apart. |
| AuthUrl.EncodeUnreserved | crowdin/src/main/java/com/crowdin/platform/auth/AuthActivity.kt:86 | A value made of unreserved characters is left unchanged by encoding. |
| AuthUrl.DecodeEncode | crowdin/src/main/java/com/crowdin/platform/auth/AuthActivity.kt:86 | Percent-decoding recovers every encoded string exactly, including characters outside ASCII encoded as UTF-8. |
| AuthRuns.StepCount | crowdin/src/main/java/com/crowdin/platform/auth/AuthActivity.kt:50-168 | Each handler call adds exactly these counted actions. A redirect with a non-empty code and assigned credentials adds one exchange. A successful token response adds one save and one distribution request, and a refused one adds one rejection. Each distribution callback adds one delivery. Nothing else adds any. |
| AuthRuns.PendingStep | crowdin/src/main/java/com/crowdin/platform/auth/AuthActivity.kt:107-153 | A deliverable handler call keeps the bookkeeping: answers never outnumber exchanges, distribution requests equal saves, and deliveries never outnumber distribution requests. |
| AuthRuns.ValidRunKeepsPending | crowdin/src/main/java/com/crowdin/platform/auth/AuthActivity.kt:107-153 | The bookkeeping holds after every deliverable sequence of handler calls. |
| AuthRuns.SolicitedResponses | crowdin/src/main/java/com/crowdin/platform/auth/AuthActivity.kt:107-153 | Every deliverable run from launch satisfies the following. No exchange is answered twice, and every save answers an exchange and comes with exactly one distribution request. Each request's callback fires at most once. A session in a store that started empty was obtained through a token exchange. |
| AuthRuns.SessionNeedsSave | crowdin/src/main/java/com/crowdin/platform/auth/AuthActivity.kt:120 | A store that started empty holds a session only if the trace contains a save of one. |
| AuthRuns.UnsolicitedInputsRefused | crowdin/src/main/java/com/crowdin/platform/auth/AuthActivity.kt:119-152 | A fresh instance can receive neither a token response nor a distribution callback. |
| AuthRuns.ForeignCallbackRefused | crowdin/src/main/java/com/crowdin/platform/auth/AuthActivity.kt:135-153 | A callback that was never handed to a distribution request is never delivered. |
| AuthRuns.UnpromptedInputsValid | crowdin/src/main/java/com/crowdin/platform/auth/AuthActivity.kt:50-105 | Lifecycle calls, authorization requests, redirects and permission results can be delivered at any time, in any order. |
| AuthRuns.FirstPage | crowdin/src/main/java/com/crowdin/platform/auth/AuthActivity.kt:57-90 | On a fresh instance with an empty store, onCreate opens one page, starts no exchange and assigns both credentials. |
| AuthRuns.RedirectExchanges | crowdin/src/main/java/com/crowdin/platform/auth/AuthActivity.kt:107-117 | Once the credentials are assigned, a redirect with a code changes only the trace. It adds one exchange and opens no page. |
| AuthRuns.TwoRedirectsTwoExchanges | crowdin/src/main/java/com/crowdin/platform/auth/AuthActivity.kt:50-117 | As written, two redirects with codes after the one page start two exchanges. |
| AuthRuns.GuardedHandleCode | crowdin/src/main/java/com/crowdin/platform/auth/AuthActivity.kt:107-117 | With the guard, either the code is handled exactly as `handleCode` does, or the redirect is dropped with no change at all. It is dropped exactly when the code is non-empty and every page opened so far already has its exchange. |
| AuthRuns.StepCounterGrows | crowdin/src/main/java/com/crowdin/platform/auth/AuthActivity.kt:78-93 | No handler moves the attempt counter back. |
| AuthRuns.GuardedStepOncePerPage | crowdin/src/main/java/com/crowdin/platform/auth/AuthActivity.kt:50-168 | With the guard, every handler call keeps the gate invariant and keeps the number of exchanges at most the number of pages opened. |
| AuthRuns.GuardedExchangesOncePerPage | crowdin/src/main/java/com/crowdin/platform/auth/AuthActivity.kt:50-168 | With the guard, whatever the handler calls, an instance starts at most one exchange, and never more exchanges than pages opened. |
| AuthRuns.ExchangeAfterPage | crowdin/src/main/java/com/crowdin/platform/auth/AuthActivity.kt:70-117 | After the authorization request, a redirect with a code posts exactly one exchange. It carries the code grant, the config's client id and secret, the fixed redirect URI and the code, and is sent for the config's organization. |
| AuthRuns.ExchangeMatchesAuthorizationPage | crowdin/src/main/java/com/crowdin/platform/auth/AuthActivity.kt:79-116 | The token request's client id and redirect URI equal the `client_id` and `redirect_uri` read back from the URL that was opened, as section 4.1.3 of RFC 6749 requires. The opened URL carries a `domain` parameter exactly when the exchange is sent for an organization. Stated only for a client id without `&` or `#`. |
| AuthActivityModel.AuthActivity.constructor | crowdin/src/main/java/com/crowdin/platform/auth/AuthActivity.kt:41-47 | The new object is in the launch state over the given store, and it satisfies the invariant. |
| AuthActivityModel.AuthActivity.RequestPermission | crowdin/src/main/java/com/crowdin/platform/auth/AuthActivity.kt:156-168 | The new state is the permission step's. The step keeps the invariant. |
| AuthActivityModel.AuthActivity.OnRequestPermissionsResult | crowdin/src/main/java/com/crowdin/platform/auth/AuthActivity.kt:96-105 | The new state is the finish of `AuthFlow.OnRequestPermissionsResult`. The invariant is kept. |
| AuthActivityModel.AuthActivity.OnCreate | crowdin/src/main/java/com/crowdin/platform/auth/AuthActivity.kt:57-68 | The new state is `AuthFlow.OnCreate` of the old one. The invariant is kept. |
| AuthActivityModel.AuthActivity.RequestAuthorization | crowdin/src/main/java/com/crowdin/platform/auth/AuthActivity.kt:70-94 | The fields and trace are updated in place exactly as `AuthFlow.RequestAuthorization` says. The invariant is kept. |
| AuthActivityModel.AuthActivity.ReloadConfig | crowdin/src/main/java/com/crowdin/platform/auth/AuthActivity.kt:71-76 | The event becomes the launching `type` extra. The credentials become those of the config, or empty strings without one, and the domain its organization name. Nothing else changes. |
| AuthActivityModel.AuthActivity.OnNewIntent | crowdin/src/main/java/com/crowdin/platform/auth/AuthActivity.kt:50-55 | The new state is `AuthFlow.OnNewIntent` of the old one. The invariant is kept. |
| AuthActivityModel.AuthActivity.HandleCode | crowdin/src/main/java/com/crowdin/platform/auth/AuthActivity.kt:107-118 | The new state is `AuthFlow.HandleCode` of the old one. The invariant is kept. |
| AuthActivityModel.AuthActivity.OnTokenResponse | crowdin/src/main/java/com/crowdin/platform/auth/AuthActivity.kt:119-127 | The store and the trace are updated exactly as `AuthFlow.OnTokenResponse` says. The invariant is kept. |
| AuthActivityModel.AuthActivity.GetDistributionInfo | crowdin/src/main/java/com/crowdin/platform/auth/AuthActivity.kt:135-136 | The only change is one distribution request, whose callback has captured the given event. |
| AuthActivityModel.AuthActivity.OnDistributionResponse | crowdin/src/main/java/com/crowdin/platform/auth/AuthActivity.kt:137-143 | The new state is `AuthFlow.OnDistributionResponse` of the old one. The invariant is kept. |
| AuthActivityModel.AuthActivity.OnDistributionError | crowdin/src/main/java/com/crowdin/platform/auth/AuthActivity.kt:145-152 | The store is cleared and the trace extended exactly as `AuthFlow.OnDistributionError` says. The invariant is kept. |
| AuthActivityModel.SessionStore.Save | crowdin/src/main/java/com/crowdin/platform/auth/AuthActivity.kt:120 | After the save, the store holds exactly the saved value. |
| AuthActivityModel.RealTimeLogin | crowdin/src/main/java/com/crowdin/platform/auth/AuthActivity.kt:50-143 | Driving a fresh object through onCreate, the redirect, an accepted token and the distribution success gives the following. The store ends holding the session. The trace is page, exchange, save, distribution request, real-time connection, permission step, translation load. Exactly one page opens. |

## Left out

- Screen setup and status text (`setContentView`, `statusTextView`) are not modelled. Toasts appear only as `ShowMessage` actions in the trace.
- `Intent` construction and `startActivity` are reduced to the `OpenUrl` action. `Uri.parse` is not modelled.
- Threads: the exchange runs on a background pool and the failure branch hops to the UI thread. The model delivers the token response to a sequential handler instead. Runs allow every interleaving of whole handlers, but no concurrent execution is modelled.
- AuthFlow.OnTokenResponse: the worker's success branch, a save followed by the distribution request, is one step. The source runs these two calls on the worker thread, so a UI-thread handler could run between them; the model cannot produce that interleaving.
- AuthFlow.HandleCode: the credentials and the domain are read when the redirect is handled. The source reads them on the worker thread when it builds the request (lines 113-116). A second authorization request in between could change them, and the model does not capture that difference.
- `AuthFlow.Run` and the `AuthActivity` methods accept any order of handler calls, including token responses and callbacks that nothing requested. The invariants proved over `Run` hold even for such runs. The request-and-response bookkeeping is proved only for the deliverable runs of `AuthRuns.ValidRun`.
- AuthRuns.Enabled: a callback counts as issued when some distribution request in the trace carries an equal callback value. The model does not distinguish two requests whose callbacks captured the same event.
- The Retrofit call `getToken(...).execute()` is a network call. It is reduced to the `ExchangeToken` action and a token response given as input. Network exceptions are not modelled.
- The bodies of `Crowdin.isAuthorized`, `saveAuthInfo`, `getDistributionInfo`, `tryCreateRealTimeConnection`, `loadTranslation` and `getAuthConfig` are not part of this model:
  - `isAuthorized` is "the store holds a session";
  - the others become trace actions or inputs;
  - token expiry and refresh inside the SDK are not modelled.
- `Log.d` in the error callback has no effect in the model.
- `checkSelfPermission` is the boolean input `granted`. The OS permission dialog is not modelled, and only its result callback is.
- Reading an unassigned `lateinit` credential throws in the source. The model records this as the `UninitializedPropertyAccess` action. What the background thread's exception then does to the process is not modelled.
- `authAttemptCounter` is a 32-bit `Int` in the source while the model uses `int`. This is harmless because the counter is proved to stay 0 or 1.
- `Uri.Builder` is Android library code. The model follows the documented behaviour of `Uri.encode` for `appendQueryParameter`:
  - letters, digits and `_-!.~'()*` are kept;
  - every other character becomes its UTF-8 bytes written as `%XX` in upper case.
- AuthUrl.AuthorizationUrlParams: requires that the client id contains neither `&` nor `#`. The source inserts the client id into the query unescaped. A client id containing `&` would add parameters of its own, and one containing `#` would start the fragment, cutting the query short. The lemma says nothing about such ids.
- AuthUrl.PlainOrganizationDomain: requires that the client id contains neither `&` nor `#`, for the same reason.
- AuthUrl.QueryOfAuthorizationUrl: requires that the client id contains no `#`, for the same reason.
- AuthRuns.ExchangeMatchesAuthorizationPage: requires a client id with neither `&` nor `#`. For any other client id the source's page and its token request carry different client ids. For example, with the id `a&b` the opened URL reads back `client_id=a`, while the token request sends `a&b`. The lemma says nothing about such ids.
- Strings are sequences of Unicode scalar values in the model. A Kotlin string can hold an unpaired surrogate, which no Dafny `char` represents, so the encoding of such strings is not modelled.
- The unassigned `lateinit` properties are `None` in the model, and `requestAuthorization` always assigns them. The default (empty) config therefore still gives `Some("")`, as the source's `?: ""` does.

## Findings

| source | as written | input that shows it | evidently intended | confidence | as-written member | corrected member |
|---|---|---|---|---|---|---|
| crowdin/src/main/java/com/crowdin/platform/auth/AuthActivity.kt:107-117 | `handleCode` exchanges every non-empty code it receives, with no check that a page still awaits its redirect | onCreate on an empty store, then two redirects carrying codes `a` and `b`: one page, two token exchanges | the redirect is handled once per opened authorization page, and later redirects with a code are dropped | low, not executed | AuthRuns.TwoRedirectsTwoExchanges | AuthRuns.GuardedHandleCode |

The corrected handler is proved over its own runs, `AuthRuns.GuardedRun`, in `AuthRuns.GuardedExchangesOncePerPage`. The other handlers, the invariants and the `AuthActivity` class keep the behaviour as written, because the source itself nowhere states the once-per-page rule, and confidence in the finding is low.
