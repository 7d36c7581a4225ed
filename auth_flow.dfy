/**
 * The login state machine of AuthActivity as pure transitions on a snapshot
 * of the activity (its fields, the session held by the SDK's auth store and
 * the trace of host actions it has performed so far), one function per
 * handler, and the properties that hold across any sequence of handler calls.
 */
module AuthFlow {
  import opened Wrappers
  import opened AuthUrl

  // ---------------------------------------------------------------------
  // Companion constants
  // ---------------------------------------------------------------------

  const PermissionsRequestReadExternalStorage: int := 1330
  const ReadExternalStorage: string := "android.permission.READ_EXTERNAL_STORAGE"
  const AuthAttemptThreshold: int := 1
  const EventType: string := "type"
  const EventRealTimeUpdates: string := "realtime_update"
  const GrantType: string := "authorization_code"
  const NotAuthenticatedMessage: string := "Not authenticated."
  const NotAuthorizedMessage: string := "Not authorized."

  // ---------------------------------------------------------------------
  // Data
  // ---------------------------------------------------------------------

  /** What Crowdin.getAuthConfig() returns when the SDK is configured. */
  datatype AuthConfig = AuthConfig(clientId: string, clientSecret: string, organizationName: Option<string>)

  datatype TokenRequest = TokenRequest(grantType: string, clientId: string, clientSecret: string,
                                       redirectUri: string, code: string)

  /** The token endpoint's response body; its fields are not inspected here. */
  datatype TokenBody = TokenBody(payload: string)

  /** What execute() returned: the success flag of the HTTP status, and the parsed body if any. */
  datatype TokenResponse = TokenResponse(isSuccessful: bool, body: Option<TokenBody>)

  datatype AuthInfo = AuthInfo(token: TokenBody)

  /** The DistributionInfoCallback object: it captures the event passed to getDistributionInfo. */
  datatype DistributionCallback = DistributionCallback(event: Option<string>)

  /** The host actions the activity performs, in the order it performs them. */
  datatype Effect =
    | OpenUrl(url: string)                                  // startActivity(ACTION_VIEW)
    | ShowMessage(text: string)                             // Toast
    | ExchangeToken(request: TokenRequest, domain: Option<string>)
    | SaveAuth(info: Option<AuthInfo>)                      // Crowdin.saveAuthInfo
    | FetchDistribution(callback: DistributionCallback)     // Crowdin.getDistributionInfo
    | RealTimeConnect                                       // Crowdin.tryCreateRealTimeConnection
    | LoadTranslation                                       // Crowdin.loadTranslation
    | PermissionRequest(permission: string, requestCode: int)
    | Finish
    | UninitializedPropertyAccess                           // a lateinit field read before assignment

  /**
   * A snapshot of one activity instance. `intentType` is the launching
   * intent's extra under the key EventType; `clientId`/`clientSecret` are None while their
   * lateinit properties are unassigned; `session` is what the SDK's auth
   * store holds; `trace` is every host action so far.
   */
  datatype Flow = Flow(
    intentType: Option<string>,
    event: Option<string>,
    authAttemptCounter: int,
    clientId: Option<string>,
    clientSecret: Option<string>,
    domain: Option<string>,
    session: Option<AuthInfo>,
    trace: seq<Effect>)

  predicate IsAuthorized(f: Flow)
  {
    f.session.Some?
  }

  predicate Succeeded(response: TokenResponse)
  {
    response.isSuccessful && response.body.Some?
  }

  /** `authConfig?.clientId ?: ""` and friends. */
  function ClientIdOf(config: Option<AuthConfig>): string
  {
    if config.Some? then config.value.clientId else ""
  }

  function ClientSecretOf(config: Option<AuthConfig>): string
  {
    if config.Some? then config.value.clientSecret else ""
  }

  function OrganizationOf(config: Option<AuthConfig>): Option<string>
  {
    if config.Some? then config.value.organizationName else None
  }

  // ---------------------------------------------------------------------
  // Handlers
  // ---------------------------------------------------------------------

  /**
   * A new instance started by launchActivity(activity, type) while the store
   * holds `session`; `launchType` is the intent's string extra under the key
   * EventType, None when the extra is absent.
   */
  function Launch(launchType: Option<string>, session: Option<AuthInfo>): (f: Flow)
    ensures f.intentType == launchType && f.session == session
    ensures f.authAttemptCounter == 0 && f.trace == [] && f.event == None
    ensures f.clientId == None && f.clientSecret == None && f.domain == None
  {
    Flow(launchType, None, 0, None, None, None, session, [])
  }

  /** requestPermission: the single terminal action of every branch. */
  function PermissionEffects(granted: bool): (effects: seq<Effect>)
    ensures |effects| == 1
    ensures effects[0] == Finish <==> granted
    ensures !granted ==> effects[0] == PermissionRequest(ReadExternalStorage, PermissionsRequestReadExternalStorage)
  {
    if granted then [Finish] else [PermissionRequest(ReadExternalStorage, PermissionsRequestReadExternalStorage)]
  }

  function RequestPermission(f: Flow, granted: bool): (g: Flow)
    ensures g.(trace := f.trace) == f
    ensures g.trace == f.trace + PermissionEffects(granted)
  {
    f.(trace := f.trace + PermissionEffects(granted))
  }

  /** Whatever the request code and the grant results, the activity finishes. */
  function OnRequestPermissionsResult(f: Flow, requestCode: int): (g: Flow)
    ensures g.(trace := f.trace) == f
    ensures g.trace == f.trace + [Finish]
  {
    if requestCode == PermissionsRequestReadExternalStorage then f.(trace := f.trace + [Finish])
    else f.(trace := f.trace + [Finish])
  }

  /**
   * requestAuthorization: reload the event and the credentials, then open
   * the authorization page unless the counter equals the threshold exactly,
   * in which case go to the permission step.
   */
  function RequestAuthorization(f: Flow, config: Option<AuthConfig>, granted: bool): (g: Flow)
    ensures g.intentType == f.intentType && g.session == f.session
    ensures g.event == f.intentType
    ensures g.clientId == Some(ClientIdOf(config)) && g.clientSecret == Some(ClientSecretOf(config))
    ensures g.domain == OrganizationOf(config)
    ensures f.authAttemptCounter != AuthAttemptThreshold ==>
              g.authAttemptCounter == f.authAttemptCounter + 1 &&
              g.trace == f.trace + [OpenUrl(AuthorizationUrl(ClientIdOf(config), OrganizationOf(config)))]
    ensures f.authAttemptCounter == AuthAttemptThreshold ==>
              g.authAttemptCounter == f.authAttemptCounter && g.trace == f.trace + PermissionEffects(granted)
  {
    var h := f.(event := f.intentType,
                clientId := Some(ClientIdOf(config)),
                clientSecret := Some(ClientSecretOf(config)),
                domain := OrganizationOf(config));
    if h.authAttemptCounter != AuthAttemptThreshold then
      var url := AuthorizationUrl(h.clientId.value, h.domain);
      h.(trace := h.trace + [OpenUrl(url)], authAttemptCounter := h.authAttemptCounter + 1)
    else
      RequestPermission(h, granted)
  }

  /** onCreate: an authorized session skips the authorization page altogether. */
  function OnCreate(f: Flow, config: Option<AuthConfig>, granted: bool): (g: Flow)
    ensures IsAuthorized(f) ==> g == f.(trace := f.trace + [RealTimeConnect] + PermissionEffects(granted))
    ensures !IsAuthorized(f) ==> g == RequestAuthorization(f, config, granted)
  {
    if IsAuthorized(f) then
      RequestPermission(f.(trace := f.trace + [RealTimeConnect]), granted)
    else
      RequestAuthorization(f, config, granted)
  }

  /** The token request built from the stored credentials, if both are assigned. */
  function TokenRequestFor(f: Flow, code: string): Option<TokenRequest>
  {
    if f.clientId.Some? && f.clientSecret.Some? then
      Some(TokenRequest(GrantType, f.clientId.value, f.clientSecret.value, RedirectUri, code))
    else None
  }

  /**
   * A token request exists exactly when both credentials are assigned; it
   * uses the authorization-code grant, the stored credentials, the fixed
   * redirect URI and the given code.
   */
  lemma TokenRequestFields(f: Flow, code: string)
    ensures TokenRequestFor(f, code).Some? <==> f.clientId.Some? && f.clientSecret.Some?
    ensures var r := TokenRequestFor(f, code);
            r.Some? ==> r.value.grantType == GrantType && r.value.redirectUri == RedirectUri && r.value.code == code
    ensures var r := TokenRequestFor(f, code);
            r.Some? ==> r.value.clientId == f.clientId.value && r.value.clientSecret == f.clientSecret.value
  {
  }

  /**
   * handleCode: an empty code is reported and leads to the permission step;
   * any other code starts exactly one token exchange with the stored
   * credentials and domain.
   */
  function HandleCode(f: Flow, code: string, granted: bool): (g: Flow)
    ensures g.(trace := f.trace) == f
    ensures code == "" ==> g.trace == f.trace + [ShowMessage(NotAuthorizedMessage)] + PermissionEffects(granted)
    ensures code != "" && f.clientId.Some? && f.clientSecret.Some? ==>
              g.trace == f.trace + [ExchangeToken(TokenRequest(GrantType, f.clientId.value, f.clientSecret.value,
                                                               RedirectUri, code), f.domain)]
    ensures code != "" && (f.clientId.None? || f.clientSecret.None?) ==>
              g.trace == f.trace + [UninitializedPropertyAccess]
  {
    if code != "" then
      match TokenRequestFor(f, code)
      case Some(request) => f.(trace := f.trace + [ExchangeToken(request, f.domain)])
      case None => f.(trace := f.trace + [UninitializedPropertyAccess])
    else
      RequestPermission(f.(trace := f.trace + [ShowMessage(NotAuthorizedMessage)]), granted)
  }

  /** onNewIntent: the redirect's `code` query parameter, "" when it or the data is absent. */
  function OnNewIntent(f: Flow, codeParameter: Option<string>, granted: bool): (g: Flow)
    ensures codeParameter.None? ==> g.trace == f.trace + [ShowMessage(NotAuthorizedMessage)] + PermissionEffects(granted)
    ensures codeParameter.None? ==> g.(trace := f.trace) == f
    ensures codeParameter.Some? ==> g == HandleCode(f, codeParameter.value, granted)
  {
    HandleCode(f, codeParameter.GetOr(""), granted)
  }

  /**
   * The rest of the exchange runnable: only a successful status with a body
   * saves the session and asks for the distribution info, capturing the
   * current event; anything else is reported and leads to the permission step.
   */
  function OnTokenResponse(f: Flow, response: TokenResponse, granted: bool): (g: Flow)
    ensures Succeeded(response) ==>
              g == f.(session := Some(AuthInfo(response.body.value)),
                      trace := f.trace + [SaveAuth(Some(AuthInfo(response.body.value))),
                                          FetchDistribution(DistributionCallback(f.event))])
    ensures Succeeded(response) ==> IsAuthorized(g)
    ensures !Succeeded(response) ==>
              g == f.(trace := f.trace + [ShowMessage(NotAuthenticatedMessage)] + PermissionEffects(granted))
  {
    if response.isSuccessful && response.body != None then
      var info := AuthInfo(response.body.value);
      f.(session := Some(info), trace := f.trace + [SaveAuth(Some(info)), FetchDistribution(DistributionCallback(f.event))])
    else
      RequestPermission(f.(trace := f.trace + [ShowMessage(NotAuthenticatedMessage)]), granted)
  }

  /** The callback's onResponse: real-time connection for the real-time event only, permission step, translations. */
  function OnDistributionResponse(f: Flow, callback: DistributionCallback, granted: bool): (g: Flow)
    ensures g.(trace := f.trace) == f
    ensures callback.event == Some(EventRealTimeUpdates) ==>
              g.trace == f.trace + [RealTimeConnect] + PermissionEffects(granted) + [LoadTranslation]
    ensures callback.event != Some(EventRealTimeUpdates) ==>
              g.trace == f.trace + PermissionEffects(granted) + [LoadTranslation]
  {
    var h := if callback.event == Some(EventRealTimeUpdates) then f.(trace := f.trace + [RealTimeConnect]) else f;
    var k := RequestPermission(h, granted);
    k.(trace := k.trace + [LoadTranslation])
  }

  /** The callback's onError: roll the session back, then the permission step; no translations. */
  function OnDistributionError(f: Flow, callback: DistributionCallback, granted: bool): (g: Flow)
    ensures g == f.(session := None, trace := f.trace + [SaveAuth(None)] + PermissionEffects(granted))
    ensures !IsAuthorized(g)
  {
    RequestPermission(f.(session := None, trace := f.trace + [SaveAuth(None)]), granted)
  }

  // ---------------------------------------------------------------------
  // Runs: any sequence of handler calls on one instance
  // ---------------------------------------------------------------------

  datatype Input =
    | Create(config: Option<AuthConfig>, granted: bool)
    | Authorize(config: Option<AuthConfig>, granted: bool)
    | NewIntent(codeParameter: Option<string>, granted: bool)
    | TokenResult(response: TokenResponse, granted: bool)
    | DistributionSuccess(callback: DistributionCallback, granted: bool)
    | DistributionFailure(callback: DistributionCallback, granted: bool)
    | PermissionsResult(requestCode: int)

  function Step(f: Flow, input: Input): Flow
  {
    match input
    case Create(config, granted) => OnCreate(f, config, granted)
    case Authorize(config, granted) => RequestAuthorization(f, config, granted)
    case NewIntent(code, granted) => OnNewIntent(f, code, granted)
    case TokenResult(response, granted) => OnTokenResponse(f, response, granted)
    case DistributionSuccess(callback, granted) => OnDistributionResponse(f, callback, granted)
    case DistributionFailure(callback, granted) => OnDistributionError(f, callback, granted)
    case PermissionsResult(requestCode) => OnRequestPermissionsResult(f, requestCode)
  }

  function Run(f: Flow, inputs: seq<Input>): Flow
    decreases |inputs|
  {
    if inputs == [] then f else Run(Step(f, inputs[0]), inputs[1..])
  }

  // ---------------------------------------------------------------------
  // Observations of a trace
  // ---------------------------------------------------------------------

  /** How many authorization pages the trace opened. */
  function Opened(t: seq<Effect>): nat
  {
    if t == [] then 0 else Opened(t[..|t| - 1]) + (if t[|t| - 1].OpenUrl? then 1 else 0)
  }

  /** What the auth store holds after the saves in `t`, starting from `before`. */
  function SessionAfter(t: seq<Effect>, before: Option<AuthInfo>): Option<AuthInfo>
  {
    if t == [] then before
    else SessionAfter(t[1..], if t[0].SaveAuth? then t[0].info else before)
  }

  /** Every token exchange uses the authorization-code grant, the fixed redirect URI and a non-empty code. */
  ghost predicate ExchangesWellFormed(t: seq<Effect>)
  {
    forall i :: 0 <= i < |t| && t[i].ExchangeToken? ==>
      t[i].request.grantType == GrantType && t[i].request.redirectUri == RedirectUri && t[i].request.code != ""
  }

  /** The attempt gate: the counter is 0 or 1 and equals the number of pages opened. */
  ghost predicate GateInvariant(f: Flow)
  {
    0 <= f.authAttemptCounter <= AuthAttemptThreshold && Opened(f.trace) == f.authAttemptCounter
  }

  /** The store holds exactly what the latest save put there (or the initial session). */
  ghost predicate SessionInvariant(f: Flow, initial: Option<AuthInfo>)
  {
    f.session == SessionAfter(f.trace, initial)
  }

  ghost predicate Invariant(f: Flow, initial: Option<AuthInfo>)
  {
    GateInvariant(f) && SessionInvariant(f, initial) && ExchangesWellFormed(f.trace)
  }

  // ---------------------------------------------------------------------
  // Lemmas
  // ---------------------------------------------------------------------

  lemma {:induction false} OpenedAppend(a: seq<Effect>, b: seq<Effect>)
    ensures Opened(a + b) == Opened(a) + Opened(b)
    decreases |b|
  {
    if b != [] {
      var b' := b[..|b| - 1];
      assert (a + b)[..|a + b| - 1] == a + b';
      assert (a + b)[|a + b| - 1] == b[|b| - 1];
      OpenedAppend(a, b');
    } else {
      assert a + b == a;
    }
  }

  lemma {:induction false} SessionAfterAppend(a: seq<Effect>, b: seq<Effect>, before: Option<AuthInfo>)
    ensures SessionAfter(a + b, before) == SessionAfter(b, SessionAfter(a, before))
    decreases |a|
  {
    if a != [] {
      assert (a + b)[0] == a[0] && (a + b)[1..] == a[1..] + b;
      SessionAfterAppend(a[1..], b, if a[0].SaveAuth? then a[0].info else before);
    } else {
      assert a + b == b;
    }
  }

  /** How a few effects appended to a trace move the observations. */
  lemma Extend(f: Flow, g: Flow, s: seq<Effect>, initial: Option<AuthInfo>)
    requires g.trace == f.trace + s
    ensures Opened(g.trace) == Opened(f.trace) + Opened(s)
    ensures SessionAfter(g.trace, initial) == SessionAfter(s, SessionAfter(f.trace, initial))
    ensures ExchangesWellFormed(f.trace) && ExchangesWellFormed(s) ==> ExchangesWellFormed(g.trace)
  {
    OpenedAppend(f.trace, s);
    SessionAfterAppend(f.trace, s, initial);
    if ExchangesWellFormed(f.trace) && ExchangesWellFormed(s) {
      forall i | 0 <= i < |g.trace| && g.trace[i].ExchangeToken?
        ensures g.trace[i].request.grantType == GrantType && g.trace[i].request.redirectUri == RedirectUri
             && g.trace[i].request.code != ""
      {
        if i >= |f.trace| {
          assert g.trace[i] == s[i - |f.trace|];
        }
      }
    }
  }

  lemma PermissionEffectsQuiet(granted: bool)
    ensures Opened(PermissionEffects(granted)) == 0
    ensures forall before :: SessionAfter(PermissionEffects(granted), before) == before
    ensures ExchangesWellFormed(PermissionEffects(granted))
  {
    var s := PermissionEffects(granted);
    assert s[..0] == [];
    assert s[1..] == [];
  }

  /** Every handler keeps the gate, the store and the exchanges in line with the trace. */
  lemma StepKeepsInvariant(f: Flow, input: Input, initial: Option<AuthInfo>)
    requires Invariant(f, initial)
    ensures Invariant(Step(f, input), initial)
  {
    match input {
      case Create(config, granted) =>
        CreateKeepsInvariant(f, config, granted, initial);
      case Authorize(config, granted) =>
        AuthorizationKeepsInvariant(f, config, granted, initial);
      case NewIntent(code, granted) =>
        HandleCodeKeepsInvariant(f, code.GetOr(""), granted, initial);
      case TokenResult(response, granted) =>
        TokenResponseKeepsInvariant(f, response, granted, initial);
      case DistributionSuccess(callback, granted) =>
        DistributionResponseKeepsInvariant(f, callback, granted, initial);
      case DistributionFailure(callback, granted) =>
        DistributionErrorKeepsInvariant(f, callback, granted, initial);
      case PermissionsResult(requestCode) =>
        QuietKeepsInvariant(f, OnRequestPermissionsResult(f, requestCode), [Finish], initial);
    }
  }

  lemma CreateKeepsInvariant(f: Flow, config: Option<AuthConfig>, granted: bool, initial: Option<AuthInfo>)
    requires Invariant(f, initial)
    ensures Invariant(OnCreate(f, config, granted), initial)
  {
    if IsAuthorized(f) {
      QuietKeepsInvariant(f, OnCreate(f, config, granted), [RealTimeConnect] + PermissionEffects(granted), initial);
    } else {
      AuthorizationKeepsInvariant(f, config, granted, initial);
    }
  }

  lemma DistributionResponseKeepsInvariant(f: Flow, callback: DistributionCallback, granted: bool,
                                           initial: Option<AuthInfo>)
    requires Invariant(f, initial)
    ensures Invariant(OnDistributionResponse(f, callback, granted), initial)
  {
    var g := OnDistributionResponse(f, callback, granted);
    if callback.event == Some(EventRealTimeUpdates) {
      QuietKeepsInvariant(f, g, [RealTimeConnect] + PermissionEffects(granted) + [LoadTranslation], initial);
    } else {
      QuietKeepsInvariant(f, g, PermissionEffects(granted) + [LoadTranslation], initial);
    }
  }

  lemma DistributionErrorKeepsInvariant(f: Flow, callback: DistributionCallback, granted: bool,
                                        initial: Option<AuthInfo>)
    requires Invariant(f, initial)
    ensures Invariant(OnDistributionError(f, callback, granted), initial)
  {
    var g := OnDistributionError(f, callback, granted);
    var s := [SaveAuth(None)] + PermissionEffects(granted);
    assert s[0] == SaveAuth(None) && s[1..] == PermissionEffects(granted);
    PermissionEffectsQuiet(granted);
    assert s[..|s| - 1] == [SaveAuth(None)] && s[..|s| - 1][..0] == [];
    assert Opened(s) == 0;
    assert ExchangesWellFormed(s);
    Extend(f, g, s, initial);
  }

  lemma QuietKeepsInvariant(f: Flow, g: Flow, s: seq<Effect>, initial: Option<AuthInfo>)
    requires Invariant(f, initial)
    requires g == f.(trace := f.trace + s) && Quiet(s)
    ensures Invariant(g, initial)
  {
    QuietSuffix(s);
    Extend(f, g, s, initial);
  }

  lemma HandleCodeKeepsInvariant(f: Flow, code: string, granted: bool, initial: Option<AuthInfo>)
    requires Invariant(f, initial)
    ensures Invariant(HandleCode(f, code, granted), initial)
  {
    var g := HandleCode(f, code, granted);
    if code == "" {
      QuietKeepsInvariant(f, g, [ShowMessage(NotAuthorizedMessage)] + PermissionEffects(granted), initial);
    } else if f.clientId.Some? && f.clientSecret.Some? {
      var s := [ExchangeToken(TokenRequest(GrantType, f.clientId.value, f.clientSecret.value, RedirectUri, code), f.domain)];
      assert s[..0] == [] && s[1..] == [];
      assert ExchangesWellFormed(s);
      Extend(f, g, s, initial);
    } else {
      QuietKeepsInvariant(f, g, [UninitializedPropertyAccess], initial);
    }
  }

  lemma TokenResponseKeepsInvariant(f: Flow, response: TokenResponse, granted: bool, initial: Option<AuthInfo>)
    requires Invariant(f, initial)
    ensures Invariant(OnTokenResponse(f, response, granted), initial)
  {
    var g := OnTokenResponse(f, response, granted);
    if Succeeded(response) {
      var info := AuthInfo(response.body.value);
      var s := [SaveAuth(Some(info)), FetchDistribution(DistributionCallback(f.event))];
      assert s[..1] == [SaveAuth(Some(info))] && s[..1][..0] == [];
      assert s[0] == SaveAuth(Some(info)) && s[1] == FetchDistribution(DistributionCallback(f.event));
      assert s[1..][1..] == [] && s[1..][0] == FetchDistribution(DistributionCallback(f.event));
      assert Opened(s[..1]) == 0;
      assert Opened(s) == 0;
      var before := SessionAfter(f.trace, initial);
      assert SessionAfter(s[1..], Some(info)) == Some(info);
      assert SessionAfter(s, before) == Some(info);
      assert ExchangesWellFormed(s);
      Extend(f, g, s, initial);
    } else {
      QuietKeepsInvariant(f, g, [ShowMessage(NotAuthenticatedMessage)] + PermissionEffects(granted), initial);
    }
  }

  /** Effects that open no page, save nothing and exchange nothing. */
  ghost predicate Quiet(s: seq<Effect>)
  {
    forall i :: 0 <= i < |s| ==> !s[i].OpenUrl? && !s[i].SaveAuth? && !s[i].ExchangeToken?
  }

  lemma {:induction false} QuietSuffix(s: seq<Effect>)
    ensures Quiet(s) ==> Opened(s) == 0 && ExchangesWellFormed(s)
    ensures Quiet(s) ==> forall before :: SessionAfter(s, before) == before
    decreases |s|
  {
    if s != [] && Quiet(s) {
      QuietSuffix(s[..|s| - 1]);
      QuietSuffix(s[1..]);
      assert Quiet(s[..|s| - 1]);
      assert Quiet(s[1..]);
    }
  }

  /** Opening one page below the threshold, with the counter moved on, keeps the invariant. */
  lemma OpenKeepsInvariant(f: Flow, g: Flow, url: string, initial: Option<AuthInfo>)
    requires Invariant(f, initial) && f.authAttemptCounter != AuthAttemptThreshold
    requires g.trace == f.trace + [OpenUrl(url)] && g.authAttemptCounter == f.authAttemptCounter + 1
    requires g.session == f.session
    ensures Invariant(g, initial)
  {
    var s := [OpenUrl(url)];
    assert s[..0] == [] && s[1..] == [];
    assert Opened(s) == 1;
    Extend(f, g, s, initial);
  }

  lemma AuthorizationKeepsInvariant(f: Flow, config: Option<AuthConfig>, granted: bool, initial: Option<AuthInfo>)
    requires Invariant(f, initial)
    ensures Invariant(RequestAuthorization(f, config, granted), initial)
  {
    var g := RequestAuthorization(f, config, granted);
    if f.authAttemptCounter != AuthAttemptThreshold {
      OpenKeepsInvariant(f, g, AuthorizationUrl(ClientIdOf(config), OrganizationOf(config)), initial);
    } else {
      PermissionEffectsQuiet(granted);
      Extend(f, g, PermissionEffects(granted), initial);
    }
  }

  lemma {:induction false} RunKeepsInvariant(f: Flow, inputs: seq<Input>, initial: Option<AuthInfo>)
    requires Invariant(f, initial)
    ensures Invariant(Run(f, inputs), initial)
    decreases |inputs|
  {
    if inputs != [] {
      StepKeepsInvariant(f, inputs[0], initial);
      RunKeepsInvariant(Step(f, inputs[0]), inputs[1..], initial);
    }
  }

  /**
   * Whatever handlers run, in whatever order, one activity instance opens the
   * authorization page at most once; the auth store always holds what the
   * latest save put there; every token exchange uses the authorization-code
   * grant, the fixed redirect URI and a non-empty code.
   */
  lemma AtMostOneAuthorizationPage(launchType: Option<string>, session: Option<AuthInfo>, inputs: seq<Input>)
    ensures Opened(Run(Launch(launchType, session), inputs).trace) <= 1
    ensures Run(Launch(launchType, session), inputs).authAttemptCounter in {0, 1}
    ensures Run(Launch(launchType, session), inputs).session == SessionAfter(Run(Launch(launchType, session), inputs).trace, session)
    ensures ExchangesWellFormed(Run(Launch(launchType, session), inputs).trace)
  {
    RunKeepsInvariant(Launch(launchType, session), inputs, session);
  }

  // ---------------------------------------------------------------------
  // Scenarios
  // ---------------------------------------------------------------------

  lemma RunCons(f: Flow, input: Input, rest: seq<Input>)
    ensures Run(f, [input] + rest) == Run(Step(f, input), rest)
  {
    assert ([input] + rest)[0] == input && ([input] + rest)[1..] == rest;
  }

  lemma RunSingle(f: Flow, input: Input)
    ensures Run(f, [input]) == Step(f, input)
  {
    RunCons(f, input, []);
  }

  /** A session that is already authorized: no page, no counter change, a real-time connection, then the permission step. */
  lemma AuthorizedLaunch(launchType: Option<string>, info: AuthInfo, config: Option<AuthConfig>, granted: bool)
    ensures Run(Launch(launchType, Some(info)), [Create(config, granted)]).trace == [RealTimeConnect] + PermissionEffects(granted)
    ensures Run(Launch(launchType, Some(info)), [Create(config, granted)]).authAttemptCounter == 0
    ensures Run(Launch(launchType, Some(info)), [Create(config, granted)]).session == Some(info)
  {
    RunSingle(Launch(launchType, Some(info)), Create(config, granted));
  }

  /** From a fresh instance the first authorization opens the page, the second only reaches the permission step. */
  lemma SecondAuthorizationOpensNothing(launchType: Option<string>, session: Option<AuthInfo>,
                                        first: Option<AuthConfig>, second: Option<AuthConfig>, granted: bool)
    ensures Run(Launch(launchType, session), [Authorize(first, granted), Authorize(second, granted)]).trace
         == [OpenUrl(AuthorizationUrl(ClientIdOf(first), OrganizationOf(first)))] + PermissionEffects(granted)
    ensures Run(Launch(launchType, session), [Authorize(first, granted), Authorize(second, granted)]).authAttemptCounter == 1
  {
    var f0 := Launch(launchType, session);
    var f1 := Step(f0, Authorize(first, granted));
    RunCons(f0, Authorize(first, granted), [Authorize(second, granted)]);
    RunSingle(f1, Authorize(second, granted));
  }

  /** Two permission steps in a row neither open a page, nor exchange, nor touch the counter or the store. */
  lemma PermissionStepTwice(f: Flow, firstGranted: bool, secondGranted: bool)
    ensures RequestPermission(RequestPermission(f, firstGranted), secondGranted).authAttemptCounter == f.authAttemptCounter
    ensures RequestPermission(RequestPermission(f, firstGranted), secondGranted).session == f.session
    ensures RequestPermission(RequestPermission(f, firstGranted), secondGranted).trace
         == f.trace + PermissionEffects(firstGranted) + PermissionEffects(secondGranted)
    ensures Quiet(PermissionEffects(firstGranted) + PermissionEffects(secondGranted))
  {
  }

  /** Redirect without a usable code: the message, then the permission step; no exchange, no session. */
  lemma EmptyCodeScenario(launchType: Option<string>, config: Option<AuthConfig>, code: Option<string>,
                          firstGranted: bool, granted: bool)
    requires code == None || code == Some("")
    ensures Run(Launch(launchType, None), [Create(config, firstGranted), NewIntent(code, granted)]).trace
         == [OpenUrl(AuthorizationUrl(ClientIdOf(config), OrganizationOf(config))), ShowMessage(NotAuthorizedMessage)]
            + PermissionEffects(granted)
    ensures Run(Launch(launchType, None), [Create(config, firstGranted), NewIntent(code, granted)]).session == None
  {
    var f0 := Launch(launchType, None);
    var f1 := Step(f0, Create(config, firstGranted));
    RunCons(f0, Create(config, firstGranted), [NewIntent(code, granted)]);
    RunSingle(f1, NewIntent(code, granted));
  }

  /** The exchange is refused: "Not authenticated.", then the permission step; nothing is saved. */
  lemma RejectedExchangeScenario(launchType: Option<string>, config: Option<AuthConfig>, body: Option<TokenBody>,
                                 firstGranted: bool, granted: bool)
    ensures Run(Launch(launchType, None), [Create(config, firstGranted), NewIntent(Some("abc123"), granted),
                                           TokenResult(TokenResponse(false, body), granted)]).trace
         == [OpenUrl(AuthorizationUrl(ClientIdOf(config), OrganizationOf(config))),
             ExchangeToken(TokenRequest(GrantType, ClientIdOf(config), ClientSecretOf(config), RedirectUri, "abc123"),
                           OrganizationOf(config)),
             ShowMessage(NotAuthenticatedMessage)]
            + PermissionEffects(granted)
    ensures Run(Launch(launchType, None), [Create(config, firstGranted), NewIntent(Some("abc123"), granted),
                                           TokenResult(TokenResponse(false, body), granted)]).session == None
  {
    var page := OpenUrl(AuthorizationUrl(ClientIdOf(config), OrganizationOf(config)));
    var exchange := ExchangeToken(TokenRequest(GrantType, ClientIdOf(config), ClientSecretOf(config), RedirectUri, "abc123"),
                                  OrganizationOf(config));
    var f0 := Launch(launchType, None);
    var f1 := Step(f0, Create(config, firstGranted));
    assert f1.session == None && f1.trace == [page];
    assert f1.clientId == Some(ClientIdOf(config)) && f1.clientSecret == Some(ClientSecretOf(config));
    var f2 := Step(f1, NewIntent(Some("abc123"), granted));
    assert f2 == f1.(trace := [page, exchange]);
    var f3 := Step(f2, TokenResult(TokenResponse(false, body), granted));
    assert f3 == f2.(trace := [page, exchange, ShowMessage(NotAuthenticatedMessage)] + PermissionEffects(granted));
    RunCons(f0, Create(config, firstGranted), [NewIntent(Some("abc123"), granted), TokenResult(TokenResponse(false, body), granted)]);
    RunCons(f1, NewIntent(Some("abc123"), granted), [TokenResult(TokenResponse(false, body), granted)]);
    RunSingle(f2, TokenResult(TokenResponse(false, body), granted));
  }

  /** The inputs of a full login launched for real-time updates, ending with the distribution result `last`. */
  function LoginInputs(config: Option<AuthConfig>, body: TokenBody, granted: bool, last: Input): seq<Input>
  {
    [Create(config, granted), NewIntent(Some("abc123"), granted), TokenResult(TokenResponse(true, Some(body)), granted), last]
  }

  /** The trace of a full login up to the distribution request. */
  function LoginPrefix(config: Option<AuthConfig>, body: TokenBody): seq<Effect>
  {
    [OpenUrl(AuthorizationUrl(ClientIdOf(config), OrganizationOf(config))),
     ExchangeToken(TokenRequest(GrantType, ClientIdOf(config), ClientSecretOf(config), RedirectUri, "abc123"),
                   OrganizationOf(config)),
     SaveAuth(Some(AuthInfo(body))),
     FetchDistribution(DistributionCallback(Some(EventRealTimeUpdates)))]
  }

  lemma LoginUpToDistribution(config: Option<AuthConfig>, body: TokenBody, granted: bool, last: Input)
    ensures Run(Launch(Some(EventRealTimeUpdates), None), LoginInputs(config, body, granted, last))
         == Step(Launch(Some(EventRealTimeUpdates), None).(
              event := Some(EventRealTimeUpdates), authAttemptCounter := 1,
              clientId := Some(ClientIdOf(config)), clientSecret := Some(ClientSecretOf(config)),
              domain := OrganizationOf(config), session := Some(AuthInfo(body)),
              trace := LoginPrefix(config, body)), last)
  {
    var inputs := LoginInputs(config, body, granted, last);
    var prefix := LoginPrefix(config, body);
    var f0 := Launch(Some(EventRealTimeUpdates), None);
    var f1 := Step(f0, inputs[0]);
    assert f1 == f0.(event := Some(EventRealTimeUpdates), authAttemptCounter := 1,
                     clientId := Some(ClientIdOf(config)), clientSecret := Some(ClientSecretOf(config)),
                     domain := OrganizationOf(config), trace := prefix[..1]);
    var f2 := Step(f1, inputs[1]);
    assert f2 == f1.(trace := prefix[..2]);
    var f3 := Step(f2, inputs[2]);
    assert f3 == f2.(session := Some(AuthInfo(body)), trace := prefix);
    assert inputs[1..] == [inputs[1]] + inputs[2..];
    assert inputs[2..] == [inputs[2]] + inputs[3..];
    assert inputs[3..] == [last];
    RunCons(f0, inputs[0], inputs[1..]);
    RunCons(f1, inputs[1], inputs[2..]);
    RunCons(f2, inputs[2], inputs[3..]);
    RunSingle(f3, last);
  }

  /** A full login for real-time updates: saved session, real-time connection, permission step, translations. */
  lemma RealTimeLoginScenario(config: Option<AuthConfig>, body: TokenBody, granted: bool)
    ensures var last := DistributionSuccess(DistributionCallback(Some(EventRealTimeUpdates)), granted);
            var g := Run(Launch(Some(EventRealTimeUpdates), None), LoginInputs(config, body, granted, last));
            g.trace == LoginPrefix(config, body) + [RealTimeConnect] + PermissionEffects(granted) + [LoadTranslation] &&
            g.session == Some(AuthInfo(body)) && g.authAttemptCounter == 1 && Opened(g.trace) == 1
  {
    var last := DistributionSuccess(DistributionCallback(Some(EventRealTimeUpdates)), granted);
    LoginUpToDistribution(config, body, granted, last);
    RunKeepsInvariant(Launch(Some(EventRealTimeUpdates), None), LoginInputs(config, body, granted, last), None);
  }

  /** The real-time login written as the handler calls themselves, the callback carrying the event then stored. */
  lemma RealTimeLoginHandlers(config: Option<AuthConfig>, body: TokenBody, granted: bool)
    ensures var f1 := OnCreate(Launch(Some(EventRealTimeUpdates), None), config, granted);
            var f3 := OnTokenResponse(OnNewIntent(f1, Some("abc123"), granted), TokenResponse(true, Some(body)), granted);
            var g := OnDistributionResponse(f3, DistributionCallback(f3.event), granted);
            g.trace == LoginPrefix(config, body) + [RealTimeConnect] + PermissionEffects(granted) + [LoadTranslation] &&
            g.session == Some(AuthInfo(body)) && Opened(g.trace) == 1
  {
    var prefix := LoginPrefix(config, body);
    var f0 := Launch(Some(EventRealTimeUpdates), None);
    var f1 := OnCreate(f0, config, granted);
    assert f1.event == Some(EventRealTimeUpdates) && f1.authAttemptCounter == 1 && f1.trace == prefix[..1];
    var f2 := OnNewIntent(f1, Some("abc123"), granted);
    assert f2 == f1.(trace := prefix[..2]);
    var f3 := OnTokenResponse(f2, TokenResponse(true, Some(body)), granted);
    assert f3 == f2.(session := Some(AuthInfo(body)), trace := prefix);
    var g := OnDistributionResponse(f3, DistributionCallback(f3.event), granted);
    assert Invariant(f0, None);
    CreateKeepsInvariant(f0, config, granted, None);
    HandleCodeKeepsInvariant(f1, "abc123", granted, None);
    TokenResponseKeepsInvariant(f2, TokenResponse(true, Some(body)), granted, None);
    DistributionResponseKeepsInvariant(f3, DistributionCallback(f3.event), granted, None);
  }

  /** The same login whose distribution request fails: the session is rolled back and no translations load. */
  lemma RolledBackLoginScenario(config: Option<AuthConfig>, body: TokenBody, granted: bool)
    ensures var last := DistributionFailure(DistributionCallback(Some(EventRealTimeUpdates)), granted);
            var g := Run(Launch(Some(EventRealTimeUpdates), None), LoginInputs(config, body, granted, last));
            g.trace == LoginPrefix(config, body) + [SaveAuth(None)] + PermissionEffects(granted) &&
            g.session == None && LoadTranslation !in g.trace
  {
    LoginUpToDistribution(config, body, granted, DistributionFailure(DistributionCallback(Some(EventRealTimeUpdates)), granted));
  }
}
