/** Turning the neutral records into WSO2 requests. */
module Builder {
  import opened Wrappers
  import opened Application
  import Text

  // ---------------------------------------------------------------- claims

  function ClaimMappings(claims: seq<Claim>): seq<ClaimMapping> {
    seq(|claims|, i requires 0 <= i < |claims| =>
      ClaimMapping(claims[i].uri, claims[i].uri, claims[i].mandatory, true))
  }

  method BuildClaimConfig(claims: seq<Claim>) returns (mappings: seq<ClaimMapping>)
    ensures mappings == ClaimMappings(claims)
  {
    mappings := [];
    for i := 0 to |claims|
      invariant mappings == ClaimMappings(claims[..i])
    {
      mappings := mappings + [ClaimMapping(claims[i].uri, claims[i].uri, claims[i].mandatory, true)];
    }
    assert claims[..|claims|] == claims;
  }

  // ---------------------------------------------------------------- OAuth vocabulary

  function ScopeValidators(names: seq<string>): seq<string> {
    if names == [] then []
    else
      var last := names[|names| - 1];
      ScopeValidators(names[..|names| - 1]) +
      (if last == "xacml" then [XACML_VALIDATOR] else if last == "role" then [ROLE_VALIDATOR] else [])
  }

  method BuildScopeValidators(names: seq<string>) returns (out: seq<string>)
    ensures out == ScopeValidators(names)
  {
    out := [];
    for i := 0 to |names|
      invariant out == ScopeValidators(names[..i])
    {
      assert names[..i + 1][..i] == names[..i];
      if names[i] == "xacml" {
        out := out + [XACML_VALIDATOR];
      } else if names[i] == "role" {
        out := out + [ROLE_VALIDATOR];
      }
    }
    assert names[..|names|] == names;
  }

  function BuildTokenBindingType(binding: string): string {
    if binding == "session" then SESSION_BINDING
    else if binding == "cookie" then COOKIE_BINDING
    else ""
  }

  /** Registration and update send the same record; the source leaves BypassClientCredentials unset. */
  function BuildOAuthApplication(name: string, cfg: OAuth2Config): OAuthRecord {
    OAuthRecord(
      cfg.accessTokenExpiry, name, cfg.audiences, false, cfg.callbackURL,
      Text.Join(cfg.grantTypes.Elems()), cfg.oauthConsumerKey, cfg.oauthConsumerSecret,
      cfg.pkceMandatory, cfg.pkcePlain, cfg.refreshTokenExpiry,
      ScopeValidators(cfg.scopeValidators), BuildTokenBindingType(cfg.tokenBinding),
      cfg.accessTokenExpiry)
  }

  // ---------------------------------------------------------------- inbound entries

  const OAUTH2_TYPE: string := "oauth2"
  const SAML_TYPE: string := "samlsso"

  function OAuthEntry(cfg: OAuth2Config): InboundEntry {
    InboundEntry(cfg.oauthConsumerKey, OAUTH2_TYPE, "oauthConsumerSecret", cfg.oauthConsumerSecret)
  }

  function SamlEntry(cfg: SAMLConfig): InboundEntry {
    InboundEntry(cfg.issuer, SAML_TYPE, "attrConsumServiceIndex", cfg.attributeConsumingServiceIndex)
  }

  function InboundConfig(app: Application): seq<InboundEntry> {
    (if app.oauth2.Some? then [OAuthEntry(app.oauth2.value)] else []) +
    (if app.saml.Some? then [SamlEntry(app.saml.value)] else []) +
    [InboundEntry(app.name, "openid", "", ""), InboundEntry(app.name, "passivests", "", "")]
  }

  method BuildInboundAuthConfig(app: Application) returns (configs: seq<InboundEntry>)
    ensures configs == InboundConfig(app)
  {
    configs := [];
    if app.oauth2.Some? {
      configs := configs + [OAuthEntry(app.oauth2.value)];
    }
    if app.saml.Some? {
      configs := configs + [SamlEntry(app.saml.value)];
    }
    configs := configs + [InboundEntry(app.name, "openid", "", "")];
    configs := configs + [InboundEntry(app.name, "passivests", "", "")];
  }

  // ---------------------------------------------------------------- authentication steps

  function LocalAuthenticators(names: seq<string>): seq<Authenticator> {
    seq(|names|, i requires 0 <= i < |names| => Authenticator(names[i], true))
  }

  method BuildLocalAuthenticators(names: seq<string>) returns (locals: seq<Authenticator>)
    ensures locals == LocalAuthenticators(names)
  {
    locals := [];
    for i := 0 to |names|
      invariant locals == LocalAuthenticators(names[..i])
    {
      locals := locals + [Authenticator(names[i], true)];
    }
    assert names[..|names|] == names;
  }

  function FederatedAuthenticators(st: AuthenticationStep): seq<Authenticator> {
    if st.federatedAuthenticator == "" then [] else [Authenticator(st.federatedAuthenticator, true)]
  }

  function StepRequest(app: Application, st: AuthenticationStep): StepRecord {
    var feds := FederatedAuthenticators(st);
    StepRecord(
      if feds != [] || st.federatedIDP != "" then [FederatedProvider(feds, st.federatedIDP)] else [],
      LocalAuthenticators(st.localAuthenticators),
      st.step, app.stepForSubject == st.step, app.stepForAttributes == st.step)
  }

  function StepRequests(app: Application, steps: seq<AuthenticationStep>): seq<StepRecord> {
    seq(|steps|, i requires 0 <= i < |steps| => StepRequest(app, steps[i]))
  }

  method BuildAuthenticationSteps(app: Application) returns (steps: seq<StepRecord>)
    ensures steps == StepRequests(app, app.authenticationSteps.Elems())
  {
    steps := [];
    if app.authenticationSteps.Nil? {
      return;
    }
    var elems := app.authenticationSteps.elems;
    for i := 0 to |elems|
      invariant steps == StepRequests(app, elems[..i])
    {
      var locals := BuildLocalAuthenticators(elems[i].localAuthenticators);
      var step := StepRecord([], locals, elems[i].step,
                             app.stepForSubject == elems[i].step, app.stepForAttributes == elems[i].step);
      var feds := FederatedAuthenticators(elems[i]);
      if |feds| > 0 || elems[i].federatedIDP != "" {
        step := step.(federatedProviders := [FederatedProvider(feds, elems[i].federatedIDP)]);
      }
      steps := steps + [step];
    }
    assert elems[..|elems|] == elems;
  }

  // ---------------------------------------------------------------- the whole update

  function BuildScriptConfig(script: string): ScriptConfig {
    if script == "" then ScriptConfig("", false, "")
    else ScriptConfig(script, true, "application/javascript")
  }

  function BuildLocalAndOutboundConfig(app: Application): LocalOutbound {
    LocalOutbound(
      app.alwaysSendBackAuthenticatedListOfIDPs,
      BuildScriptConfig(app.authenticationScript),
      StepRequests(app, app.authenticationSteps.Elems()),
      "flow", app.subjectClaimURI, app.enableAuthorization, app.skipConsent, app.skipLogoutConsent,
      app.useTenantInSub, app.useUserstoreInSub, app.useUserstoreInRoles)
  }

  function BuildUpdateApplication(app: Application): ServiceProviderRequest {
    ServiceProviderRequest(
      app.id, app.name, app.description, ClaimMappings(app.claims), app.subjectClaimURI,
      InboundConfig(app), BuildLocalAndOutboundConfig(app))
  }

  // ---------------------------------------------------------------- the requests, as they are put together

  method BuildOAuthRequest(name: string, cfg: OAuth2Config) returns (r: OAuthRecord)
    ensures r == BuildOAuthApplication(name, cfg)
  {
    var validators := BuildScopeValidators(cfg.scopeValidators);
    r := OAuthRecord(
      cfg.accessTokenExpiry, name, cfg.audiences, false, cfg.callbackURL,
      Text.Join(cfg.grantTypes.Elems()), cfg.oauthConsumerKey, cfg.oauthConsumerSecret,
      cfg.pkceMandatory, cfg.pkcePlain, cfg.refreshTokenExpiry,
      validators, BuildTokenBindingType(cfg.tokenBinding), cfg.accessTokenExpiry);
  }

  method BuildUpdateRequest(app: Application) returns (r: ServiceProviderRequest)
    ensures r == BuildUpdateApplication(app)
  {
    var mappings := BuildClaimConfig(app.claims);
    var inbound := BuildInboundAuthConfig(app);
    var steps := BuildAuthenticationSteps(app);
    var local := LocalOutbound(
      app.alwaysSendBackAuthenticatedListOfIDPs, BuildScriptConfig(app.authenticationScript), steps,
      "flow", app.subjectClaimURI, app.enableAuthorization, app.skipConsent, app.skipLogoutConsent,
      app.useTenantInSub, app.useUserstoreInSub, app.useUserstoreInRoles);
    r := ServiceProviderRequest(app.id, app.name, app.description, mappings, app.subjectClaimURI, inbound, local);
  }
}
