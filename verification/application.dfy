/** The records of the operator: the declared spec, the neutral `Application` it is turned into,
    and the wire records exchanged with WSO2 Identity Server. */
module Application {
  import opened Wrappers

  datatype Claim = Claim(uri: string, mandatory: bool)

  datatype OAuth2Config = OAuth2Config(
    enabled: bool,
    callbackURL: string,
    grantTypes: Slice<string>,
    pkceMandatory: bool,
    pkcePlain: bool,
    publicClient: bool,
    tokenBinding: string,
    audiences: seq<string>,
    scopeValidators: seq<string>,
    refreshTokenExpiry: int,
    accessTokenExpiry: int,
    oauthConsumerKey: string,
    oauthConsumerSecret: string)

  const BLANK_OAUTH: OAuth2Config :=
    OAuth2Config(false, "", Nil, false, false, false, "", [], [], 0, 0, "", "")

  /** The fields of the source's SAMLConfig that the operator ever sets or reads. */
  datatype SAMLConfig = SAMLConfig(
    enabled: bool,
    acsURLs: Slice<string>,
    issuer: string,
    defaultAssertionConsumerURL: string,
    nameIDFormat: string,
    certAlias: string,
    certificateContent: string,
    loginPageURL: string,
    sloRequestURL: string,
    sloResponseURL: string,
    frontChannelLogoutBinding: string,
    attributeConsumingServiceIndex: string,
    doSignAssertions: bool,
    doSignResponse: bool,
    doSingleLogout: bool,
    doFrontChannelLogout: bool,
    doEnableEncryptedAssertion: bool,
    doValidateSignatureInRequests: bool,
    enableAttributeProfile: bool,
    enableAttributesByDefault: bool,
    enableSAML2ArtifactBinding: bool)

  const BLANK_SAML: SAMLConfig :=
    SAMLConfig(false, Nil, "", "", "", "", "", "", "", "", "", "",
               false, false, false, false, false, false, false, false, false)

  datatype AuthenticationStep = AuthenticationStep(
    step: int,
    localAuthenticators: seq<string>,
    federatedIDP: string,
    federatedAuthenticator: string)

  datatype Application = Application(
    id: int,
    resourceID: string,
    name: string,
    description: string,
    claims: seq<Claim>,
    subjectClaimURI: string,
    oauth2: Option<OAuth2Config>,
    saml: Option<SAMLConfig>,
    authenticationSteps: Slice<AuthenticationStep>,
    authenticationScript: string,
    alwaysSendBackAuthenticatedListOfIDPs: bool,
    enableAuthorization: bool,
    skipConsent: bool,
    skipLogoutConsent: bool,
    useTenantInSub: bool,
    useUserstoreInSub: bool,
    useUserstoreInRoles: bool,
    stepForSubject: int,
    stepForAttributes: int)

  // ---------------------------------------------------------------- the declared spec

  datatype OAuth2Spec = OAuth2Spec(
    callbackURL: string,
    grantTypes: Slice<string>,
    pkceMandatory: bool,
    pkcePlain: bool,
    publicClient: bool,
    tokenBinding: string,
    audiences: seq<string>,
    scopeValidators: seq<string>,
    refreshTokenExpiry: int,
    accessTokenExpiry: int)

  datatype SAMLSpec = SAMLSpec(
    metadataURL: string,
    enableAttributeProfile: bool,
    includeAttributesByDefault: bool)

  datatype SPSpec = SPSpec(
    instanceRef: string,
    name: string,
    claims: seq<Claim>,
    description: string,
    subjectClaimURI: string,
    saml: Option<SAMLSpec>,
    oauth2: Option<OAuth2Spec>,
    authenticationSteps: Slice<AuthenticationStep>,
    authenticationScript: Option<string>,
    alwaysSendBackAuthenticatedListOfIDPs: bool,
    enableAuthorization: bool,
    skipConsent: bool,
    skipLogoutConsent: bool,
    useTenantInSub: bool,
    useUserstoreInSub: bool,
    useUserstoreInRoles: bool,
    stepForSubject: int,
    stepForAttributes: int)

  // ---------------------------------------------------------------- wire records

  datatype ClaimMapping = ClaimMapping(localURI: string, remoteURI: string, mandatory: bool, requested: bool)

  datatype InboundEntry = InboundEntry(key: string, authType: string, propertyName: string, propertyValue: string)

  datatype Authenticator = Authenticator(name: string, valid: bool)

  datatype FederatedProvider = FederatedProvider(authenticators: seq<Authenticator>, identityProviderName: string)

  /** The optional provider list is absent exactly when it is empty on the wire. */
  datatype StepRecord = StepRecord(
    federatedProviders: seq<FederatedProvider>,
    localAuthenticators: seq<Authenticator>,
    stepOrder: int,
    subjectStep: bool,
    attributeStep: bool)

  datatype ScriptConfig = ScriptConfig(content: string, enabled: bool, language: string)

  datatype LocalOutbound = LocalOutbound(
    alwaysSendBackAuthenticatedListOfIDPs: bool,
    script: ScriptConfig,
    steps: seq<StepRecord>,
    authenticationType: string,
    subjectClaimURI: string,
    enableAuthorization: bool,
    skipConsent: bool,
    skipLogoutConsent: bool,
    useTenantDomain: bool,
    useUserstoreDomain: bool,
    useUserstoreDomainInRoles: bool)

  /** An application update as sent. */
  datatype ServiceProviderRequest = ServiceProviderRequest(
    applicationID: int,
    name: string,
    description: string,
    claimMappings: seq<ClaimMapping>,
    userClaimURI: string,
    inbound: seq<InboundEntry>,
    localOutbound: LocalOutbound)

  /** An application as read back. The server always returns the three nested blocks. */
  datatype ServiceProviderResponse = ServiceProviderResponse(
    applicationID: int,
    resourceID: string,
    name: string,
    description: string,
    claimMappings: seq<ClaimMapping>,
    inbound: seq<InboundEntry>,
    localOutbound: LocalOutbound)

  /** An OAuth registration on the wire; requests and responses share the fields that matter. */
  datatype OAuthRecord = OAuthRecord(
    applicationAccessTokenExpiryTime: int,
    applicationName: string,
    audiences: seq<string>,
    bypassClientCredentials: bool,
    callbackURL: string,
    grantTypes: string,
    oauthConsumerKey: string,
    oauthConsumerSecret: string,
    pkceMandatory: bool,
    pkceSupportPlain: bool,
    refreshTokenExpiryTime: int,
    scopeValidators: seq<string>,
    tokenBindingType: string,
    userAccessTokenExpiryTime: int)

  // The names are the source's; the two validator texts are exchanged there, consistently.
  const XACML_VALIDATOR: string := "Role based scope validator"
  const ROLE_VALIDATOR: string := "XACML Scope Validator"
  const SESSION_BINDING: string := "sso-session"
  const COOKIE_BINDING: string := "cookie"

  lemma ConstantsDiffer()
    ensures XACML_VALIDATOR != ROLE_VALIDATOR && SESSION_BINDING != COOKIE_BINDING
    ensures SESSION_BINDING != "" && COOKIE_BINDING != ""
    ensures "xacml" != "role" && "session" != "cookie" && "oauth2" != "samlsso"
    ensures "openid" != "oauth2" && "openid" != "samlsso" && "passivests" != "oauth2" && "passivests" != "samlsso"
  {
    assert XACML_VALIDATOR[0] == 'R' && ROLE_VALIDATOR[0] == 'X';
    assert SESSION_BINDING[0] == 's' && COOKIE_BINDING[0] == 'c';
    assert "xacml"[0] == 'x' && "role"[0] == 'r' && "session"[0] == 's' && "cookie"[0] == 'c';
    assert "openid"[1] == 'p' && "oauth2"[1] == 'a' && "samlsso"[0] == 's' && "passivests"[0] == 'p';
  }
}
