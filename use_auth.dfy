/**
  The login session: the saved configuration it holds, whether it is
  authenticated, whether a check is under way, and the API client it hands
  to the rest of the application. Network answers (whether a saved token is
  still accepted, whether the login endpoint returned a token) arrive as
  parameters; the ping of an API-key login is not modelled because its
  outcome is ignored.
 */
module UseAuth {
  import opened Wrappers
  import opened Types
  import opened Storage
  import Client

  /** `storedConfigToAuthConfig`: a credentials login gets an empty password; any other method is an API-key login. */
  function StoredConfigToAuthConfig(stored: StoredAuthConfig): (config: AuthConfig)
    ensures config.baseUrl == stored.baseUrl
    ensures config.UserCredentials? <==> stored.authMethod == UserCredentialsMethod
    ensures config.UserCredentials? ==> config.password == "" && config.email == stored.email && config.accessToken == stored.accessToken
    ensures config.ApiKey? ==> config.apiKey == stored.apiKey
  {
    if stored.authMethod == UserCredentialsMethod then
      UserCredentials(stored.baseUrl, stored.email, "", stored.accessToken)
    else
      ApiKey(stored.baseUrl, stored.apiKey)
  }

  /** The configuration a login saves for the one it logged in with: everything but the password. */
  function Saved(config: AuthConfig): (r: StoredAuthConfig)
    ensures r.baseUrl == config.baseUrl
    ensures config.UserCredentials? <==> r.authMethod == UserCredentialsMethod
    ensures config.UserCredentials? ==> r.email == config.email && r.accessToken == config.accessToken && r.apiKey.None?
    ensures config.ApiKey? ==> r.authMethod == ApiKeyMethod && r.apiKey == config.apiKey && r.email.None? && r.accessToken.None?
  {
    match config
    case UserCredentials(baseUrl, email, _, accessToken) => StoredAuthConfig(baseUrl, UserCredentialsMethod, None, email, accessToken)
    case ApiKey(baseUrl, apiKey) => StoredAuthConfig(baseUrl, ApiKeyMethod, apiKey, None, None)
  }

  /** A configuration with its password forgotten. */
  function WithoutPassword(config: AuthConfig): (r: AuthConfig)
    ensures r.baseUrl == config.baseUrl && (r.UserCredentials? <==> config.UserCredentials?)
    ensures r.UserCredentials? ==> r.password == "" && r.email == config.email && r.accessToken == config.accessToken
    ensures r.ApiKey? ==> r == config
  {
    match config
    case UserCredentials(_, _, _, _) => config.(password := "")
    case ApiKey(_, _) => config
  }

  /** Converting a saved configuration back gives the original with its password forgotten. */
  lemma ConvertSaved(config: AuthConfig)
    ensures StoredConfigToAuthConfig(Saved(config)) == WithoutPassword(config)
  {
  }

  /** A configuration of the shape a login saves is saved again unchanged after a conversion. */
  lemma SaveConverted(stored: StoredAuthConfig)
    requires stored.authMethod == UserCredentialsMethod ==> stored.apiKey.None?
    requires stored.authMethod == ApiKeyMethod ==> stored.email.None? && stored.accessToken.None?
    requires stored.authMethod == UserCredentialsMethod || stored.authMethod == ApiKeyMethod
    ensures Saved(StoredConfigToAuthConfig(stored)) == stored
  {
  }

  /** The headers and the media parameter never depend on the password. */
  lemma CredentialsIgnorePassword(config: AuthConfig)
    ensures Client.Headers(WithoutPassword(config)) == Client.Headers(config)
    ensures Client.MediaAuthParam(WithoutPassword(config)) == Client.MediaAuthParam(config)
  {
  }

  /**
    A client stands for a saved configuration: it was built from the same
    configuration, the password aside (which the client never sends, as
    `CredentialsIgnorePassword` shows).
   */
  predicate ClientMatches(client: Client.ApiClient, stored: StoredAuthConfig) {
    WithoutPassword(client.authConfig) == StoredConfigToAuthConfig(stored)
  }

  /** The client built at login stands for what the login saves. */
  lemma LoginClientMatchesSaved(config: AuthConfig)
    ensures ClientMatches(Client.NewClient(config), Saved(config))
  {
    ConvertSaved(config);
  }

  /** The client built from a stored configuration stands for it. */
  lemma ConvertedClientMatches(stored: StoredAuthConfig)
    ensures ClientMatches(Client.NewClient(StoredConfigToAuthConfig(stored)), stored)
  {
  }

  /**
    The session's invariant: authenticated exactly when a client is held;
    that client stands for the configuration held, and the configuration
    held is the one saved.
   */
  predicate SessionInvariant(authConfig: Option<StoredAuthConfig>, isAuthenticated: bool, apiClient: Option<Client.ApiClient>, entries: map<string, StoredValue>) {
    && (isAuthenticated <==> apiClient.Some?)
    && (apiClient.Some? ==> authConfig.Some? && ClientMatches(apiClient.value, authConfig.value))
    && (authConfig.Some? ==> AuthConfigKey in entries && entries[AuthConfigKey] == Encode(authConfig.value))
  }

  /** What the login endpoint answered. */
  datatype LoginOutcome = LoginFailed | LoginSucceeded(accessToken: string)

  class Session {
    var authConfig: Option<StoredAuthConfig>
    var isAuthenticated: bool
    var isValidating: bool
    var apiClient: Option<Client.ApiClient>
    const store: Store

    ghost predicate Valid()
      reads this, store
    {
      SessionInvariant(authConfig, isAuthenticated, apiClient, store.entries)
    }

    /** The initial state: nothing loaded, a check pending. */
    constructor(store: Store)
      ensures this.store == store
      ensures authConfig.None? && !isAuthenticated && isValidating && apiClient.None?
      ensures Valid()
    {
      this.store := store;
      authConfig := None;
      isAuthenticated := false;
      isValidating := true;
      apiClient := None;
    }

    /**
      The mount effect: read the saved configuration; with one, hold it and
      check it; without one, the check is over.
     */
    method Mount(tokenValid: bool)
      requires Valid()
      requires authConfig.None? && apiClient.None?
      modifies this, store
      ensures Valid() && !isValidating
      ensures store.entries == EntriesAfterRead(old(store.entries))
      ensures authConfig == ReadAuth(old(store.entries))
      ensures isAuthenticated <==> authConfig.Some? && (authConfig.value.authMethod != UserCredentialsMethod || tokenValid)
      ensures isAuthenticated ==> apiClient == Some(Client.NewClient(StoredConfigToAuthConfig(authConfig.value)))
    {
      var config := store.GetAuthConfig();
      if config.Some? {
        authConfig := config;
        assert store.entries[AuthConfigKey] == Encode(config.value);
        ValidateAndSetup(config.value, tokenValid);
      } else {
        isValidating := false;
      }
    }

    /**
      `validateAndSetup`: a credentials configuration is accepted only if the
      server still accepts its token, and is dropped (client and
      authentication) otherwise; an API-key configuration is always accepted.
      The check is over at the end either way.
     */
    method ValidateAndSetup(config: StoredAuthConfig, tokenValid: bool)
      requires Valid() && authConfig == Some(config)
      modifies this
      ensures Valid() && !isValidating
      ensures authConfig == old(authConfig)
      ensures isAuthenticated <==> config.authMethod != UserCredentialsMethod || tokenValid
      ensures isAuthenticated ==> apiClient == Some(Client.NewClient(StoredConfigToAuthConfig(config)))
    {
      isValidating := true;
      var apiConfig := StoredConfigToAuthConfig(config);
      var client := Client.NewClient(apiConfig);
      ConvertedClientMatches(config);
      if config.authMethod == UserCredentialsMethod {
        if !tokenValid {
          isAuthenticated := false;
          apiClient := None;
          isValidating := false;
          return;
        }
        apiClient := Some(client);
        isAuthenticated := true;
      } else {
        apiClient := Some(client);
        isAuthenticated := true;
      }
      isValidating := false;
    }

    /**
      The end of a successful login, once the configuration is saved without
      its password: hold it and a client built from the full configuration.
     */
    method SignIn(config: AuthConfig)
      requires AuthConfigKey in store.entries && store.entries[AuthConfigKey] == Encode(Saved(config))
      modifies this
      ensures Valid()
      ensures authConfig == Some(Saved(config)) && isAuthenticated
      ensures apiClient == Some(Client.NewClient(config))
      ensures isValidating == old(isValidating)
    {
      LoginClientMatchesSaved(config);
      authConfig := Some(Saved(config));
      apiClient := Some(Client.NewClient(config));
      isAuthenticated := true;
    }

    /**
      `loginWithCredentials`: on a token from the server, save the
      configuration without its password, hold it and its client, and
      answer true; on failure answer false and change nothing but the end of
      the check.
     */
    method LoginWithCredentials(baseUrl: string, email: string, password: string, outcome: LoginOutcome) returns (ok: bool)
      requires Valid()
      modifies this, store
      ensures Valid() && !isValidating
      ensures ok <==> outcome.LoginSucceeded?
      ensures ok ==> var config := UserCredentials(baseUrl, Some(email), password, Some(outcome.accessToken));
        && store.entries == old(store.entries)[AuthConfigKey := Encode(Saved(config))]
        && authConfig == Some(Saved(config)) && isAuthenticated
        && apiClient == Some(Client.NewClient(config))
      ensures !ok ==> store.entries == old(store.entries) && authConfig == old(authConfig)
      ensures !ok ==> isAuthenticated == old(isAuthenticated) && apiClient == old(apiClient)
    {
      isValidating := true;
      match outcome {
        case LoginFailed =>
          ok := false;
        case LoginSucceeded(accessToken) =>
          var config := UserCredentials(baseUrl, Some(email), password, Some(accessToken));
          store.SetAuthConfig(Saved(config));
          SignIn(config);
          ok := true;
      }
      isValidating := false;
    }

    /** `loginWithApiKey`: always succeeds, whatever the ping answers. */
    method LoginWithApiKey(baseUrl: string, apiKey: string) returns (ok: bool)
      requires Valid()
      modifies this, store
      ensures Valid() && !isValidating && ok
      ensures var config := ApiKey(baseUrl, Some(apiKey));
        && store.entries == old(store.entries)[AuthConfigKey := Encode(Saved(config))]
        && authConfig == Some(Saved(config)) && isAuthenticated
        && apiClient == Some(Client.NewClient(config))
    {
      isValidating := true;
      var config := ApiKey(baseUrl, Some(apiKey));
      store.SetAuthConfig(Saved(config));
      SignIn(config);
      ok := true;
      isValidating := false;
    }

    /** `logout`: forget the saved configuration, the client and the authentication. */
    method Logout()
      requires Valid()
      modifies this, store
      ensures Valid()
      ensures store.entries == old(store.entries) - {AuthConfigKey}
      ensures authConfig.None? && apiClient.None? && !isAuthenticated
      ensures isValidating == old(isValidating)
    {
      store.ClearAuthConfig();
      authConfig := None;
      apiClient := None;
      isAuthenticated := false;
    }
  }

  /** After a successful login with a base URL, the next start reads back the same configuration. */
  lemma LoginSurvivesRestart(entries: map<string, StoredValue>, config: AuthConfig)
    requires config.baseUrl != ""
    ensures ReadAuth(entries[AuthConfigKey := Encode(Saved(config))]) == Some(Saved(config))
  {
    ReadAfterSet(entries, Saved(config));
  }

  /** After logout, the next start finds no configuration. */
  lemma LogoutSurvivesRestart(entries: map<string, StoredValue>)
    ensures ReadAuth(entries - {AuthConfigKey}).None?
  {
    ReadAfterClear(entries);
  }
}
