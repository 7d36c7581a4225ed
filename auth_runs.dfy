/**
 * Runs the platform can actually deliver. A token response only arrives for
 * an exchange that was started, and a distribution callback only fires
 * for a request that was made, once per request. Counting the actions of
 * a trace shows that every such run keeps responses in line with requests.
 * This module also gives the guarded variant of handleCode that exchanges
 * at most one code per opened authorization page.
 */
module AuthRuns {
  import opened Wrappers
  import opened AuthUrl
  import opened AuthFlow

  // ---------------------------------------------------------------------
  // Counting the actions of a trace
  // ---------------------------------------------------------------------

  /**
   * The request and response actions that are counted: a token exchange
   * started, a session saved, an exchange reported as failed, a
   * distribution request made, and a distribution callback delivered (a
   * translation load or a rollback).
   */
  datatype Kind = Exchange | Save | Rejection | Fetch | Delivery

  function KindOf(e: Effect): Option<Kind>
  {
    match e
    case ExchangeToken(_, _) => Some(Exchange)
    case SaveAuth(info) => if info.Some? then Some(Save) else Some(Delivery)
    case ShowMessage(text) => if text == NotAuthenticatedMessage then Some(Rejection) else None
    case FetchDistribution(_) => Some(Fetch)
    case LoadTranslation => Some(Delivery)
    case _ => None
  }

  /** How many actions of kind `k` the trace holds. */
  function Count(t: seq<Effect>, k: Kind): nat
  {
    if t == [] then 0 else Count(t[..|t| - 1], k) + (if KindOf(t[|t| - 1]) == Some(k) then 1 else 0)
  }

  lemma {:induction false} CountAppend(a: seq<Effect>, b: seq<Effect>, k: Kind)
    ensures Count(a + b, k) == Count(a, k) + Count(b, k)
    decreases |b|
  {
    if b != [] {
      var b' := b[..|b| - 1];
      assert (a + b)[..|a + b| - 1] == a + b';
      assert (a + b)[|a + b| - 1] == b[|b| - 1];
      CountAppend(a, b', k);
    } else {
      assert a + b == a;
    }
  }

  /** `t + [e]` counts `t`'s actions, plus `e` when it is of kind `k`. */
  lemma CountSnoc(t: seq<Effect>, e: Effect, k: Kind)
    ensures Count(t + [e], k) == Count(t, k) + (if KindOf(e) == Some(k) then 1 else 0)
  {
    assert (t + [e])[..|t + [e]| - 1] == t;
  }

  /** `[e] + t` counts `e` when it is of kind `k`, plus `t`'s actions. */
  lemma CountCons(e: Effect, t: seq<Effect>, k: Kind)
    ensures Count([e] + t, k) == (if KindOf(e) == Some(k) then 1 else 0) + Count(t, k)
  {
    CountAppend([e], t, k);
    CountSnoc([], e, k);
    assert [] + [e] == [e];
  }

  /** The permission step counts for nothing. */
  lemma CountThenPermission(t: seq<Effect>, granted: bool, k: Kind)
    ensures Count(t + PermissionEffects(granted), k) == Count(t, k)
  {
    assert PermissionEffects(granted) == [PermissionEffects(granted)[0]];
    CountSnoc(t, PermissionEffects(granted)[0], k);
  }

  // ---------------------------------------------------------------------
  // What each handler adds to the counts
  // ---------------------------------------------------------------------

  /**
   * How many actions of kind `k` one handler call adds: a redirect with a
   * non-empty code and assigned credentials starts one exchange, a token
   * response is either a save together with a distribution request or a
   * rejection, and each distribution callback is one delivery. Nothing else
   * counts.
   */
  function Added(f: Flow, input: Input, k: Kind): nat
  {
    match input
    case NewIntent(code, _) =>
      if k == Exchange && code.GetOr("") != "" && f.clientId.Some? && f.clientSecret.Some? then 1 else 0
    case TokenResult(response, _) =>
      if Succeeded(response) then (if k == Save || k == Fetch then 1 else 0) else (if k == Rejection then 1 else 0)
    case DistributionSuccess(_, _) => if k == Delivery then 1 else 0
    case DistributionFailure(_, _) => if k == Delivery then 1 else 0
    case _ => 0
  }

  lemma AuthorizationCount(f: Flow, config: Option<AuthConfig>, granted: bool, k: Kind)
    ensures Count(RequestAuthorization(f, config, granted).trace, k) == Count(f.trace, k)
  {
    if f.authAttemptCounter != AuthAttemptThreshold {
      CountSnoc(f.trace, OpenUrl(AuthorizationUrl(ClientIdOf(config), OrganizationOf(config))), k);
    } else {
      CountThenPermission(f.trace, granted, k);
    }
  }

  lemma CreateCount(f: Flow, config: Option<AuthConfig>, granted: bool, k: Kind)
    ensures Count(OnCreate(f, config, granted).trace, k) == Count(f.trace, k)
  {
    if IsAuthorized(f) {
      CountSnoc(f.trace, RealTimeConnect, k);
      CountThenPermission(f.trace + [RealTimeConnect], granted, k);
    } else {
      AuthorizationCount(f, config, granted, k);
    }
  }

  lemma NewIntentCount(f: Flow, codeParameter: Option<string>, granted: bool, k: Kind)
    ensures Count(OnNewIntent(f, codeParameter, granted).trace, k)
         == Count(f.trace, k) + Added(f, NewIntent(codeParameter, granted), k)
  {
    var code := codeParameter.GetOr("");
    if code == "" {
      assert |NotAuthorizedMessage| != |NotAuthenticatedMessage|;
      CountSnoc(f.trace, ShowMessage(NotAuthorizedMessage), k);
      CountThenPermission(f.trace + [ShowMessage(NotAuthorizedMessage)], granted, k);
    } else if f.clientId.Some? && f.clientSecret.Some? {
      CountSnoc(f.trace, ExchangeToken(TokenRequest(GrantType, f.clientId.value, f.clientSecret.value,
                                                    RedirectUri, code), f.domain), k);
    } else {
      CountSnoc(f.trace, UninitializedPropertyAccess, k);
    }
  }

  lemma TokenResultCount(f: Flow, response: TokenResponse, granted: bool, k: Kind)
    ensures Count(OnTokenResponse(f, response, granted).trace, k)
         == Count(f.trace, k) + Added(f, TokenResult(response, granted), k)
  {
    if Succeeded(response) {
      SavedCount(f.trace, AuthInfo(response.body.value), DistributionCallback(f.event), k);
    } else {
      CountSnoc(f.trace, ShowMessage(NotAuthenticatedMessage), k);
      CountThenPermission(f.trace + [ShowMessage(NotAuthenticatedMessage)], granted, k);
    }
  }

  /** A save followed by its distribution request counts as one of each. */
  lemma SavedCount(t: seq<Effect>, info: AuthInfo, callback: DistributionCallback, k: Kind)
    ensures Count(t + [SaveAuth(Some(info)), FetchDistribution(callback)], k)
         == Count(t, k) + (if k == Save || k == Fetch then 1 else 0)
  {
    var save, fetch := SaveAuth(Some(info)), FetchDistribution(callback);
    CountSnoc(t, save, k);
    CountSnoc(t + [save], fetch, k);
    assert t + [save, fetch] == t + [save] + [fetch];
  }

  /** The permission step and then the translation load count as one delivery. */
  lemma UncountedThenLoad(t: seq<Effect>, granted: bool, k: Kind)
    ensures Count(t + PermissionEffects(granted) + [LoadTranslation], k) == Count(t, k) + (if k == Delivery then 1 else 0)
  {
    CountThenPermission(t, granted, k);
    CountSnoc(t + PermissionEffects(granted), LoadTranslation, k);
  }

  lemma DistributionResponseCount(f: Flow, callback: DistributionCallback, granted: bool, k: Kind)
    ensures Count(OnDistributionResponse(f, callback, granted).trace, k)
         == Count(f.trace, k) + (if k == Delivery then 1 else 0)
  {
    if callback.event == Some(EventRealTimeUpdates) {
      CountSnoc(f.trace, RealTimeConnect, k);
      UncountedThenLoad(f.trace + [RealTimeConnect], granted, k);
    } else {
      UncountedThenLoad(f.trace, granted, k);
    }
  }

  lemma DistributionErrorCount(f: Flow, callback: DistributionCallback, granted: bool, k: Kind)
    ensures Count(OnDistributionError(f, callback, granted).trace, k)
         == Count(f.trace, k) + (if k == Delivery then 1 else 0)
  {
    CountSnoc(f.trace, SaveAuth(None), k);
    CountThenPermission(f.trace + [SaveAuth(None)], granted, k);
  }

  /** Every handler call adds exactly `Added` actions of each kind to the trace. */
  lemma StepCount(f: Flow, input: Input, k: Kind)
    ensures Count(Step(f, input).trace, k) == Count(f.trace, k) + Added(f, input, k)
  {
    match input {
      case Create(config, granted) =>
        CreateCount(f, config, granted, k);
        assert Added(f, input, k) == 0;
      case Authorize(config, granted) =>
        AuthorizationCount(f, config, granted, k);
        assert Added(f, input, k) == 0;
      case NewIntent(code, granted) =>
        NewIntentCount(f, code, granted, k);
      case TokenResult(response, granted) =>
        TokenResultCount(f, response, granted, k);
      case DistributionSuccess(callback, granted) =>
        DistributionResponseCount(f, callback, granted, k);
        assert Added(f, input, k) == if k == Delivery then 1 else 0;
      case DistributionFailure(callback, granted) =>
        DistributionErrorCount(f, callback, granted, k);
        assert Added(f, input, k) == if k == Delivery then 1 else 0;
      case PermissionsResult(requestCode) =>
        CountSnoc(f.trace, Finish, k);
        assert Added(f, input, k) == 0;
    }
  }

  // ---------------------------------------------------------------------
  // Runs the platform can deliver
  // ---------------------------------------------------------------------

  /**
   * Whether the platform can deliver `input` now: a token response needs an
   * exchange still awaiting its answer, a distribution callback needs a
   * request whose callback has not fired yet and must be a callback that
   * was actually handed to such a request. Activity lifecycle calls and
   * redirects can come at any time.
   */
  predicate Enabled(f: Flow, input: Input)
  {
    var t := f.trace;
    match input
    case TokenResult(_, _) => Count(t, Save) + Count(t, Rejection) < Count(t, Exchange)
    case DistributionSuccess(callback, _) => Count(t, Delivery) < Count(t, Fetch) && FetchDistribution(callback) in t
    case DistributionFailure(callback, _) => Count(t, Delivery) < Count(t, Fetch) && FetchDistribution(callback) in t
    case _ => true
  }

  predicate ValidRun(f: Flow, inputs: seq<Input>)
    decreases |inputs|
  {
    inputs == [] || (Enabled(f, inputs[0]) && ValidRun(Step(f, inputs[0]), inputs[1..]))
  }

  /**
   * Responses never outnumber requests: each exchange is answered at most
   * once, each save comes with exactly one distribution request, and each
   * request's callback fires at most once.
   */
  predicate Pending(f: Flow)
  {
    var t := f.trace;
    Count(t, Save) + Count(t, Rejection) <= Count(t, Exchange) && Count(t, Fetch) == Count(t, Save)
    && Count(t, Delivery) <= Count(t, Fetch)
  }

  lemma PendingStep(f: Flow, input: Input)
    requires Pending(f) && Enabled(f, input)
    ensures Pending(Step(f, input))
  {
    StepCount(f, input, Exchange);
    StepCount(f, input, Save);
    StepCount(f, input, Rejection);
    StepCount(f, input, Fetch);
    StepCount(f, input, Delivery);
  }

  lemma {:induction false} ValidRunKeepsPending(f: Flow, inputs: seq<Input>)
    requires Pending(f) && ValidRun(f, inputs)
    ensures Pending(Run(f, inputs))
    decreases |inputs|
  {
    if inputs != [] {
      PendingStep(f, inputs[0]);
      ValidRunKeepsPending(Step(f, inputs[0]), inputs[1..]);
    }
  }

  /** A store that started empty holds a session only after some save of one. */
  lemma {:induction false} SessionNeedsSave(t: seq<Effect>, before: Option<AuthInfo>)
    ensures SessionAfter(t, before).Some? ==> before.Some? || Count(t, Save) >= 1
    decreases |t|
  {
    if t != [] {
      SessionNeedsSave(t[1..], if t[0].SaveAuth? then t[0].info else before);
      CountCons(t[0], t[1..], Save);
      assert [t[0]] + t[1..] == t;
    }
  }

  /**
   * In every run the platform can deliver from launch: no exchange is
   * answered twice, every save was preceded by an exchange and comes with
   * one distribution request, every distribution callback fires at most
   * once per request, and a session in a store that started empty was
   * obtained through a token exchange.
   */
  lemma SolicitedResponses(launchType: Option<string>, session: Option<AuthInfo>, inputs: seq<Input>)
    requires ValidRun(Launch(launchType, session), inputs)
    ensures var t := Run(Launch(launchType, session), inputs).trace;
            Count(t, Save) + Count(t, Rejection) <= Count(t, Exchange) && Count(t, Fetch) == Count(t, Save)
            && Count(t, Delivery) <= Count(t, Fetch)
    ensures session.None? && Run(Launch(launchType, session), inputs).session.Some? ==>
              Count(Run(Launch(launchType, session), inputs).trace, Exchange) >= 1
  {
    var f := Launch(launchType, session);
    ValidRunKeepsPending(f, inputs);
    RunKeepsInvariant(f, inputs, session);
    SessionNeedsSave(Run(f, inputs).trace, session);
  }

  /**
   * A fresh instance cannot receive a token response, nor a distribution
   * callback: no exchange has been started and no request has been made.
   */
  lemma UnsolicitedInputsRefused(launchType: Option<string>, session: Option<AuthInfo>, input: Input)
    requires input.TokenResult? || input.DistributionSuccess? || input.DistributionFailure?
    ensures !ValidRun(Launch(launchType, session), [input])
  {
    assert Launch(launchType, session).trace == [];
  }

  /** A callback that no distribution request was given is never delivered, whatever is pending. */
  lemma ForeignCallbackRefused(f: Flow, callback: DistributionCallback, granted: bool, rest: seq<Input>)
    requires FetchDistribution(callback) !in f.trace
    ensures !ValidRun(f, [DistributionSuccess(callback, granted)] + rest)
    ensures !ValidRun(f, [DistributionFailure(callback, granted)] + rest)
  {
    assert ([DistributionSuccess(callback, granted)] + rest)[0] == DistributionSuccess(callback, granted);
    assert ([DistributionFailure(callback, granted)] + rest)[0] == DistributionFailure(callback, granted);
  }

  // ---------------------------------------------------------------------
  // One exchange per opened page
  // ---------------------------------------------------------------------

  /** Lifecycle calls, authorization requests, redirects and permission results can always be delivered. */
  lemma {:induction false} UnpromptedInputsValid(f: Flow, inputs: seq<Input>)
    requires forall i :: 0 <= i < |inputs| ==>
               !inputs[i].TokenResult? && !inputs[i].DistributionSuccess? && !inputs[i].DistributionFailure?
    ensures ValidRun(f, inputs)
    decreases |inputs|
  {
    if inputs != [] {
      assert forall i :: 0 <= i < |inputs[1..]| ==> inputs[1..][i] == inputs[i + 1];
      UnpromptedInputsValid(Step(f, inputs[0]), inputs[1..]);
    }
  }

  /** A redirect with a code, once the credentials are assigned, adds one exchange and opens nothing. */
  lemma RedirectExchanges(f: Flow, code: string, granted: bool)
    requires f.clientId.Some? && f.clientSecret.Some? && code != ""
    ensures HandleCode(f, code, granted).(trace := f.trace) == f
    ensures Count(HandleCode(f, code, granted).trace, Exchange) == Count(f.trace, Exchange) + 1
    ensures Opened(HandleCode(f, code, granted).trace) == Opened(f.trace)
  {
    var e := ExchangeToken(TokenRequestFor(f, code).value, f.domain);
    CountSnoc(f.trace, e, Exchange);
    OpenedAppend(f.trace, [e]);
    assert [e][..0] == [];
  }

  /**
   * handleCode as written has no guard: a second redirect with a code,
   * after one page, starts a second exchange. Redirects can always be
   * delivered (UnpromptedInputsValid), so the platform allows this run.
   */
  lemma TwoRedirectsTwoExchanges(launchType: Option<string>, config: Option<AuthConfig>, first: string, second: string,
                                 granted: bool)
    requires first != "" && second != ""
    ensures var f := OnCreate(Launch(launchType, None), config, granted);
            var g := OnNewIntent(OnNewIntent(f, Some(first), granted), Some(second), granted);
            Opened(g.trace) == 1 && Count(g.trace, Exchange) == 2
  {
    var f1 := OnCreate(Launch(launchType, None), config, granted);
    FirstPage(launchType, config, granted);
    RedirectExchanges(f1, first, granted);
    RedirectExchanges(HandleCode(f1, first, granted), second, granted);
  }

  /** onCreate on a fresh instance with an empty store opens one page and assigns the credentials. */
  lemma FirstPage(launchType: Option<string>, config: Option<AuthConfig>, granted: bool)
    ensures var f := OnCreate(Launch(launchType, None), config, granted);
            f.clientId.Some? && f.clientSecret.Some? && Opened(f.trace) == 1 && Count(f.trace, Exchange) == 0
  {
    var f := OnCreate(Launch(launchType, None), config, granted);
    var e := OpenUrl(AuthorizationUrl(ClientIdOf(config), OrganizationOf(config)));
    assert f.trace == [] + [e];
    CountSnoc([], e, Exchange);
    assert f.trace[..0] == [];
  }

  /**
   * handleCode with a once-per-page guard: a non-empty code is only
   * exchanged while an opened page still awaits its redirect; any later
   * redirect with a code is dropped.
   */
  function GuardedHandleCode(f: Flow, code: string, granted: bool): (g: Flow)
    ensures Count(f.trace, Exchange) < Opened(f.trace) || code == "" ==> g == HandleCode(f, code, granted)
    ensures Count(f.trace, Exchange) >= Opened(f.trace) && code != "" ==> g == f
  {
    if code != "" && Count(f.trace, Exchange) >= Opened(f.trace) then f else HandleCode(f, code, granted)
  }

  function GuardedStep(f: Flow, input: Input): Flow
  {
    match input
    case NewIntent(code, granted) => GuardedHandleCode(f, code.GetOr(""), granted)
    case _ => Step(f, input)
  }

  function GuardedRun(f: Flow, inputs: seq<Input>): Flow
    decreases |inputs|
  {
    if inputs == [] then f else GuardedRun(GuardedStep(f, inputs[0]), inputs[1..])
  }

  /** Exchanges never outnumber opened pages, and the gate invariant holds. */
  ghost predicate OncePerPage(f: Flow, initial: Option<AuthInfo>)
  {
    Invariant(f, initial) && Count(f.trace, Exchange) <= Opened(f.trace)
  }

  /** No handler moves the attempt counter back. */
  lemma StepCounterGrows(f: Flow, input: Input)
    ensures Step(f, input).authAttemptCounter >= f.authAttemptCounter
  {
    match input {
      case Create(config, granted) =>
      case Authorize(config, granted) =>
      case NewIntent(code, granted) =>
        assert Step(f, input) == HandleCode(f, code.GetOr(""), granted);
      case TokenResult(response, granted) =>
      case DistributionSuccess(callback, granted) =>
      case DistributionFailure(callback, granted) =>
      case PermissionsResult(requestCode) =>
    }
  }

  lemma GuardedStepOncePerPage(f: Flow, input: Input, initial: Option<AuthInfo>)
    requires OncePerPage(f, initial)
    ensures OncePerPage(GuardedStep(f, input), initial)
  {
    var g := GuardedStep(f, input);
    if g != f {
      assert g == Step(f, input);
      StepKeepsInvariant(f, input, initial);
      StepCount(f, input, Exchange);
      StepCounterGrows(f, input);
    }
  }

  lemma {:induction false} GuardedRunOncePerPage(f: Flow, inputs: seq<Input>, initial: Option<AuthInfo>)
    requires OncePerPage(f, initial)
    ensures OncePerPage(GuardedRun(f, inputs), initial)
    decreases |inputs|
  {
    if inputs != [] {
      GuardedStepOncePerPage(f, inputs[0], initial);
      GuardedRunOncePerPage(GuardedStep(f, inputs[0]), inputs[1..], initial);
    }
  }

  /** With the guard, whatever the handler calls, one instance exchanges at most one code, and only after its page. */
  lemma GuardedExchangesOncePerPage(launchType: Option<string>, session: Option<AuthInfo>, inputs: seq<Input>)
    ensures Count(GuardedRun(Launch(launchType, session), inputs).trace, Exchange)
         <= Opened(GuardedRun(Launch(launchType, session), inputs).trace) <= 1
  {
    var f := Launch(launchType, session);
    GuardedRunOncePerPage(f, inputs, session);
  }

  // ---------------------------------------------------------------------
  // The exchange matches the authorization request
  // ---------------------------------------------------------------------

  /**
   * After the page is opened, a redirect with a code posts a token request
   * whose client id and redirect URI are exactly the `client_id` and
   * `redirect_uri` parameters read back from the opened page's URL, as
   * section 4.1.3 of RFC 6749 requires, for the domain that URL carries.
   */
  lemma ExchangeMatchesAuthorizationPage(f: Flow, config: Option<AuthConfig>, code: string, granted: bool)
    requires f.authAttemptCounter != AuthAttemptThreshold && code != ""
    requires '&' !in ClientIdOf(config) && '#' !in ClientIdOf(config)
    ensures var g := RequestAuthorization(f, config, granted);
            var ps := QueryParams(QueryOf(AuthorizationUrl(ClientIdOf(config), OrganizationOf(config))));
            var r := TokenRequestFor(g, code);
            g.trace == f.trace + [OpenUrl(AuthorizationUrl(ClientIdOf(config), OrganizationOf(config)))] &&
            r.Some? && HandleCode(g, code, granted).trace == g.trace + [ExchangeToken(r.value, g.domain)] &&
            |ps| >= 4 && ps[0] == ("client_id", r.value.clientId) && ps[3] == ("redirect_uri", r.value.redirectUri) &&
            (HasKey(ps, DomainKey) <==> g.domain.Some?)
  {
    var cid, org := ClientIdOf(config), OrganizationOf(config);
    var g := RequestAuthorization(f, config, granted);
    ExchangeAfterPage(f, config, code, granted);
    AuthorizationUrlParams(cid, org);
    var ps := ExpectedParams(cid, org);
    assert ps[0] == ("client_id", cid) && ps[3] == ("redirect_uri", RedirectUri);
  }

  /** The exchange a redirect starts after the authorization request uses that request's credentials and domain. */
  lemma ExchangeAfterPage(f: Flow, config: Option<AuthConfig>, code: string, granted: bool)
    requires code != ""
    ensures var g := RequestAuthorization(f, config, granted);
            TokenRequestFor(g, code) == Some(TokenRequest(GrantType, ClientIdOf(config), ClientSecretOf(config), RedirectUri, code)) &&
            HandleCode(g, code, granted).trace == g.trace + [ExchangeToken(TokenRequestFor(g, code).value, OrganizationOf(config))]
  {
  }
}
