/** Turning WSO2 responses back into the neutral records. */
module Mapper {
  import opened Wrappers
  import opened Application
  import Builder
  import Text

  /** Reading a response either yields a value or panics on an empty authenticator list. */
  datatype Mapped<+T> = Good(value: T) | Panic

  // ---------------------------------------------------------------- OAuth

  function MapTokenBinding(binding: string): string {
    if binding == "" then ""
    else if binding == SESSION_BINDING then "session"
    else if binding == COOKIE_BINDING then "cookie"
    else ""
  }

  function ScopeNames(validators: seq<string>): seq<string> {
    if validators == [] then []
    else
      var last := validators[|validators| - 1];
      ScopeNames(validators[..|validators| - 1]) +
      (if last == XACML_VALIDATOR then ["xacml"] else if last == ROLE_VALIDATOR then ["role"] else [])
  }

  method MapScopeValidators(validators: seq<string>) returns (out: seq<string>)
    ensures out == ScopeNames(validators)
  {
    out := [];
    for i := 0 to |validators|
      invariant out == ScopeNames(validators[..i])
    {
      assert validators[..i + 1][..i] == validators[..i];
      if validators[i] == XACML_VALIDATOR {
        out := out + ["xacml"];
      } else if validators[i] == ROLE_VALIDATOR {
        out := out + ["role"];
      }
    }
    assert validators[..|validators|] == validators;
  }

  function MapGetOAuthApplication(r: OAuthRecord): OAuth2Config {
    OAuth2Config(
      false, r.callbackURL, Of(Text.Split(r.grantTypes)), r.pkceMandatory, r.pkceSupportPlain,
      r.bypassClientCredentials, MapTokenBinding(r.tokenBindingType), r.audiences,
      ScopeNames(r.scopeValidators), r.refreshTokenExpiryTime, r.userAccessTokenExpiryTime,
      r.oauthConsumerKey, r.oauthConsumerSecret)
  }

  // ---------------------------------------------------------------- claims and inbound flags

  function Claims(mappings: seq<ClaimMapping>): seq<Claim> {
    seq(|mappings|, i requires 0 <= i < |mappings| => Claim(mappings[i].localURI, mappings[i].mandatory))
  }

  method MapClaims(mappings: seq<ClaimMapping>) returns (out: seq<Claim>)
    ensures out == Claims(mappings)
  {
    out := [];
    for i := 0 to |mappings|
      invariant out == Claims(mappings[..i])
    {
      out := out + [Claim(mappings[i].localURI, mappings[i].mandatory)];
    }
    assert mappings[..|mappings|] == mappings;
  }

  predicate HasInbound(inbound: seq<InboundEntry>, authType: string) {
    exists e | e in inbound :: e.authType == authType
  }

  /** The scan behind both `isOAuthEnalbed` and `isSAMLEnabled`. */
  method IsInboundEnabled(inbound: seq<InboundEntry>, authType: string) returns (found: bool)
    ensures found == HasInbound(inbound, authType)
  {
    for i := 0 to |inbound|
      invariant forall j | 0 <= j < i :: inbound[j].authType != authType
    {
      if inbound[i].authType == authType {
        return true;
      }
    }
    return false;
  }

  // ---------------------------------------------------------------- authentication steps

  function LocalNames(locals: seq<Authenticator>): seq<string> {
    seq(|locals|, i requires 0 <= i < |locals| => locals[i].name)
  }

  /** The first provider's first authenticator is read unguarded. */
  predicate ReadableStep(r: StepRecord) {
    r.federatedProviders == [] || r.federatedProviders[0].authenticators != []
  }

  predicate Readable(steps: seq<StepRecord>) {
    forall r | r in steps :: ReadableStep(r)
  }

  function MapStep(r: StepRecord): AuthenticationStep
    requires ReadableStep(r)
  {
    AuthenticationStep(
      r.stepOrder, LocalNames(r.localAuthenticators),
      if r.federatedProviders == [] then "" else r.federatedProviders[0].identityProviderName,
      if r.federatedProviders == [] then "" else r.federatedProviders[0].authenticators[0].name)
  }

  function MapSteps(steps: seq<StepRecord>): seq<AuthenticationStep>
    requires Readable(steps)
  {
    seq(|steps|, i requires 0 <= i < |steps| => MapStep(steps[i]))
  }

  /** The order of the last step flagged as subject step, or 0. */
  function SubjectOrder(steps: seq<StepRecord>): int {
    if steps == [] then 0
    else
      var last := steps[|steps| - 1];
      if last.subjectStep then last.stepOrder else SubjectOrder(steps[..|steps| - 1])
  }

  /** The order of the last step flagged as attribute step, or 0. */
  function AttributeOrder(steps: seq<StepRecord>): int {
    if steps == [] then 0
    else
      var last := steps[|steps| - 1];
      if last.attributeStep then last.stepOrder else AttributeOrder(steps[..|steps| - 1])
  }

  datatype StepsRead = StepsRead(steps: Slice<AuthenticationStep>, subject: int, attributes: int)

  function StepsOf(steps: seq<StepRecord>): Mapped<StepsRead> {
    if steps == [] then Good(StepsRead(Nil, 1, 1))
    else if Readable(steps) then Good(StepsRead(Of(MapSteps(steps)), SubjectOrder(steps), AttributeOrder(steps)))
    else Panic
  }

  method MapAuthenticationSteps(steps: seq<StepRecord>) returns (r: Mapped<StepsRead>)
    ensures r == StepsOf(steps)
  {
    if |steps| == 0 {
      return Good(StepsRead(Nil, 1, 1));
    }
    var out, sub, attr := [], 0, 0;
    for i := 0 to |steps|
      invariant Readable(steps[..i])
      invariant out == MapSteps(steps[..i])
      invariant sub == SubjectOrder(steps[..i]) && attr == AttributeOrder(steps[..i])
    {
      assert steps[..i + 1][..i] == steps[..i];
      if steps[i].subjectStep {
        sub := steps[i].stepOrder;
      }
      if steps[i].attributeStep {
        attr := steps[i].stepOrder;
      }
      if !ReadableStep(steps[i]) {
        return Panic;
      }
      out := out + [MapStep(steps[i])];
    }
    assert steps[..|steps|] == steps;
    return Good(StepsRead(Of(out), sub, attr));
  }

  // ---------------------------------------------------------------- the whole response

  function MapGetApplication(r: ServiceProviderResponse): Mapped<Application> {
    match StepsOf(r.localOutbound.steps)
    case Panic => Panic
    case Good(read) =>
      Good(Application(
        r.applicationID, r.resourceID, r.name, r.description,
        Claims(r.claimMappings), r.localOutbound.subjectClaimURI,
        Some(BLANK_OAUTH.(enabled := HasInbound(r.inbound, Builder.OAUTH2_TYPE))),
        Some(BLANK_SAML.(enabled := HasInbound(r.inbound, Builder.SAML_TYPE))),
        read.steps, r.localOutbound.script.content,
        false,
        r.localOutbound.enableAuthorization, r.localOutbound.skipConsent, r.localOutbound.skipLogoutConsent,
        r.localOutbound.useTenantDomain, r.localOutbound.useUserstoreDomain,
        r.localOutbound.useUserstoreDomainInRoles,
        read.subject, read.attributes))
  }

  // ---------------------------------------------------------------- the responses, as they are taken apart

  method MapOAuthResponse(r: OAuthRecord) returns (cfg: OAuth2Config)
    ensures cfg == MapGetOAuthApplication(r)
  {
    var scopes := MapScopeValidators(r.scopeValidators);
    cfg := OAuth2Config(
      false, r.callbackURL, Of(Text.Split(r.grantTypes)), r.pkceMandatory, r.pkceSupportPlain,
      r.bypassClientCredentials, MapTokenBinding(r.tokenBindingType), r.audiences,
      scopes, r.refreshTokenExpiryTime, r.userAccessTokenExpiryTime, r.oauthConsumerKey, r.oauthConsumerSecret);
  }

  method MapApplicationResponse(r: ServiceProviderResponse) returns (app: Mapped<Application>)
    ensures app == MapGetApplication(r)
  {
    var read := MapAuthenticationSteps(r.localOutbound.steps);
    if read.Panic? {
      return Panic;
    }
    var claims := MapClaims(r.claimMappings);
    var oauth := IsInboundEnabled(r.inbound, Builder.OAUTH2_TYPE);
    var saml := IsInboundEnabled(r.inbound, Builder.SAML_TYPE);
    var local := r.localOutbound;
    app := Good(Application(
      r.applicationID, r.resourceID, r.name, r.description, claims, local.subjectClaimURI,
      Some(BLANK_OAUTH.(enabled := oauth)), Some(BLANK_SAML.(enabled := saml)),
      read.value.steps, local.script.content, false,
      local.enableAuthorization, local.skipConsent, local.skipLogoutConsent,
      local.useTenantDomain, local.useUserstoreDomain, local.useUserstoreDomainInRoles,
      read.value.subject, read.value.attributes));
  }
}
