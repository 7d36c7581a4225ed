/**
 * The activity itself: an object whose handlers update its fields and the
 * SDK's session store in place and record every host action on `trace`.
 * Each handler is proved to leave the object in exactly the state the
 * corresponding AuthFlow function computes, and to keep AuthFlow.Invariant.
 */
module AuthActivityModel {
  import opened Wrappers
  import opened AuthUrl
  import opened AuthFlow

  /** The SDK's auth store behind Crowdin.saveAuthInfo and Crowdin.isAuthorized. */
  class SessionStore {
    var authInfo: Option<AuthInfo>

    constructor (initial: Option<AuthInfo>)
      ensures authInfo == initial
    {
      authInfo := initial;
    }

    method Save(info: Option<AuthInfo>)
      modifies this
      ensures authInfo == info
    {
      authInfo := info;
    }
  }

  class AuthActivity {
    /** The launching intent's "type" extra. */
    const intentType: Option<string>
    var event: Option<string>
    var authAttemptCounter: int
    /** lateinit properties: None while unassigned. */
    var clientId: Option<string>
    var clientSecret: Option<string>
    var domain: Option<string>
    const store: SessionStore
    /** Every host action performed so far. */
    var trace: seq<Effect>
    /** What the store held when the activity was launched. */
    ghost const initialSession: Option<AuthInfo>

    function Snapshot(): Flow
      reads this, store
    {
      Flow(intentType, event, authAttemptCounter, clientId, clientSecret, domain, store.authInfo, trace)
    }

    ghost predicate Valid()
      reads this, store
    {
      Invariant(Snapshot(), initialSession)
    }

    /** launchActivity(activity, type): a fresh instance over the shared store. */
    constructor (launchType: Option<string>, store: SessionStore)
      ensures this.store == store
      ensures Snapshot() == Launch(launchType, store.authInfo)
      ensures initialSession == store.authInfo
      ensures Valid()
    {
      intentType := launchType;
      event := None;
      authAttemptCounter := 0;
      clientId := None;
      clientSecret := None;
      domain := None;
      this.store := store;
      trace := [];
      initialSession := store.authInfo;
    }

    /** requestPermission; `granted` is the answer of checkSelfPermission. */
    method RequestPermission(granted: bool)
      modifies this
      ensures Snapshot() == AuthFlow.RequestPermission(old(Snapshot()), granted)
      ensures old(Valid()) ==> Valid()
    {
      ghost var f := Snapshot();
      if !granted {
        trace := trace + [PermissionRequest(ReadExternalStorage, PermissionsRequestReadExternalStorage)];
      } else {
        trace := trace + [Finish];
      }
      if Invariant(f, initialSession) {
        PermissionEffectsQuiet(granted);
        QuietKeepsInvariant(f, Snapshot(), PermissionEffects(granted), initialSession);
      }
    }

    method OnRequestPermissionsResult(requestCode: int)
      requires Valid()
      modifies this
      ensures Snapshot() == AuthFlow.OnRequestPermissionsResult(old(Snapshot()), requestCode)
      ensures Valid()
    {
      ghost var f := Snapshot();
      if requestCode == PermissionsRequestReadExternalStorage {
        trace := trace + [Finish];
      } else {
        trace := trace + [Finish];
      }
      QuietKeepsInvariant(f, Snapshot(), [Finish], initialSession);
    }

    /** onCreate; `config` is what Crowdin.getAuthConfig returns. */
    method OnCreate(config: Option<AuthConfig>, granted: bool)
      requires Valid()
      modifies this
      ensures Snapshot() == AuthFlow.OnCreate(old(Snapshot()), config, granted)
      ensures Valid()
    {
      ghost var f := Snapshot();
      if store.authInfo.Some? {
        trace := trace + [RealTimeConnect];
        RequestPermission(granted);
        CreateKeepsInvariant(f, config, granted, initialSession);
      } else {
        RequestAuthorization(config, granted);
      }
    }

    method RequestAuthorization(config: Option<AuthConfig>, granted: bool)
      requires Valid()
      modifies this
      ensures Snapshot() == AuthFlow.RequestAuthorization(old(Snapshot()), config, granted)
      ensures Valid()
    {
      ghost var f := Snapshot();
      ReloadConfig(config);
      if authAttemptCounter != AuthAttemptThreshold {
        var url := AuthorizationUrl(clientId.value, domain);
        trace := trace + [OpenUrl(url)];
        authAttemptCounter := authAttemptCounter + 1;
      } else {
        RequestPermission(granted);
      }
      AuthorizationKeepsInvariant(f, config, granted, initialSession);
    }

    /** The first lines of requestAuthorization: the event and the credentials are read again. */
    method ReloadConfig(config: Option<AuthConfig>)
      modifies this
      ensures Snapshot() == old(Snapshot()).(event := intentType, clientId := Some(ClientIdOf(config)),
                                             clientSecret := Some(ClientSecretOf(config)),
                                             domain := OrganizationOf(config))
    {
      event := intentType;
      clientId := Some(ClientIdOf(config));
      clientSecret := Some(ClientSecretOf(config));
      domain := OrganizationOf(config);
    }

    /** onNewIntent; `codeParameter` is the redirect's `code` query parameter, None without one. */
    method OnNewIntent(codeParameter: Option<string>, granted: bool)
      requires Valid()
      modifies this
      ensures Snapshot() == AuthFlow.OnNewIntent(old(Snapshot()), codeParameter, granted)
      ensures Valid()
    {
      var code := codeParameter.GetOr("");
      HandleCode(code, granted);
    }

    /** handleCode up to the token request sent from the background runnable. */
    method HandleCode(code: string, granted: bool)
      requires Valid()
      modifies this
      ensures Snapshot() == AuthFlow.HandleCode(old(Snapshot()), code, granted)
      ensures Valid()
    {
      ghost var f := Snapshot();
      if |code| > 0 {
        if clientId.None? || clientSecret.None? {
          trace := trace + [UninitializedPropertyAccess];
        } else {
          var request := TokenRequest(GrantType, clientId.value, clientSecret.value, RedirectUri, code);
          trace := trace + [ExchangeToken(request, domain)];
        }
      } else {
        trace := trace + [ShowMessage(NotAuthorizedMessage)];
        RequestPermission(granted);
      }
      HandleCodeKeepsInvariant(f, code, granted, initialSession);
    }

    /** The rest of the background runnable, once the token response has arrived. */
    method OnTokenResponse(response: TokenResponse, granted: bool)
      requires Valid()
      modifies this, store
      ensures Snapshot() == AuthFlow.OnTokenResponse(old(Snapshot()), response, granted)
      ensures Valid()
    {
      ghost var f := Snapshot();
      if response.isSuccessful && response.body.Some? {
        var info := AuthInfo(response.body.value);
        store.Save(Some(info));
        trace := trace + [SaveAuth(Some(info))];
        GetDistributionInfo(event);
      } else {
        trace := trace + [ShowMessage(NotAuthenticatedMessage)];
        RequestPermission(granted);
      }
      TokenResponseKeepsInvariant(f, response, granted, initialSession);
    }

    /** getDistributionInfo: the request carries a callback that has captured `ev`. */
    method GetDistributionInfo(ev: Option<string>)
      modifies this
      ensures Snapshot() == old(Snapshot()).(trace := old(trace) + [FetchDistribution(DistributionCallback(ev))])
    {
      trace := trace + [FetchDistribution(DistributionCallback(ev))];
    }

    /** The callback's onResponse. */
    method OnDistributionResponse(callback: DistributionCallback, granted: bool)
      requires Valid()
      modifies this
      ensures Snapshot() == AuthFlow.OnDistributionResponse(old(Snapshot()), callback, granted)
      ensures Valid()
    {
      ghost var f := Snapshot();
      if callback.event == Some(EventRealTimeUpdates) {
        trace := trace + [RealTimeConnect];
      }
      RequestPermission(granted);
      trace := trace + [LoadTranslation];
      DistributionResponseKeepsInvariant(f, callback, granted, initialSession);
    }

    /** The callback's onError. */
    method OnDistributionError(callback: DistributionCallback, granted: bool)
      requires Valid()
      modifies this, store
      ensures Snapshot() == AuthFlow.OnDistributionError(old(Snapshot()), callback, granted)
      ensures Valid()
    {
      ghost var f := Snapshot();
      store.Save(None);
      trace := trace + [SaveAuth(None)];
      RequestPermission(granted);
      DistributionErrorKeepsInvariant(f, callback, granted, initialSession);
    }
  }

  /**
   * A whole login driven through one activity object, launched for
   * real-time updates with an empty store: the page opens once, the code is
   * exchanged, the session is kept and the translations load.
   */
  method RealTimeLogin(config: Option<AuthConfig>, body: TokenBody, granted: bool)
    returns (session: Option<AuthInfo>, trace: seq<Effect>)
    ensures session == Some(AuthInfo(body))
    ensures trace == LoginPrefix(config, body) + [RealTimeConnect] + PermissionEffects(granted) + [LoadTranslation]
    ensures Opened(trace) == 1
  {
    var store := new SessionStore(None);
    var activity := new AuthActivity(Some(EventRealTimeUpdates), store);
    activity.OnCreate(config, granted);
    activity.OnNewIntent(Some("abc123"), granted);
    activity.OnTokenResponse(TokenResponse(true, Some(body)), granted);
    activity.OnDistributionResponse(DistributionCallback(activity.event), granted);
    session := store.authInfo;
    trace := activity.trace;
    RealTimeLoginHandlers(config, body, granted);
  }
}
