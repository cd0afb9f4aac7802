/** What the records on the wire say of the spec, field by field, without going through the operator's
    own mappings; and that building, mapping and comparing mean exactly that. */
module Wire {
  import opened Wrappers
  import opened Application
  import opened Server
  import Builder
  import Helpers
  import Mapper
  import Reconcile
  import RoundTrip
  import SamlMetadata
  import Text
  import World

  // ---------------------------------------------------------------- OAuth

  /** The validator text of a scope validator name, as WSO2 knows it; none for other names. */
  function ValidatorText(name: string): seq<string> {
    if name == "xacml" then ["Role based scope validator"]
    else if name == "role" then ["XACML Scope Validator"]
    else []
  }

  function ValidatorTexts(names: seq<string>): seq<string> {
    if names == [] then [] else ValidatorText(names[0]) + ValidatorTexts(names[1..])
  }

  /** The validators of a registration that mean anything to the operator. */
  function KnownTexts(texts: seq<string>): seq<string> {
    if texts == [] then []
    else
      (if texts[0] == "Role based scope validator" || texts[0] == "XACML Scope Validator" then [texts[0]] else [])
      + KnownTexts(texts[1..])
  }

  function BindingText(binding: string): string {
    if binding == "session" then "sso-session" else if binding == "cookie" then "cookie" else ""
  }

  /** The grant types on the wire: the words, one blank between two. */
  predicate Spells(text: string, words: seq<string>) {
    match |words|
    case 0 => text == ""
    case 1 => text == words[0]
    case _ => |words[0]| < |text| && text[..|words[0]|] == words[0] && text[|words[0]|] == ' '
              && Spells(text[|words[0]| + 1..], words[1..])
  }

  /** A registration as the operator writes it. */
  predicate Registers(r: OAuthRecord, name: string, o: OAuth2Spec, key: string, secret: string) {
    && r.applicationName == name
    && r.callbackURL == o.callbackURL
    && Spells(r.grantTypes, o.grantTypes.Elems())
    && r.pkceMandatory == o.pkceMandatory && r.pkceSupportPlain == o.pkcePlain && !r.bypassClientCredentials
    && r.audiences == o.audiences
    && r.refreshTokenExpiryTime == o.refreshTokenExpiry
    && r.applicationAccessTokenExpiryTime == o.accessTokenExpiry && r.userAccessTokenExpiryTime == o.accessTokenExpiry
    && r.scopeValidators == ValidatorTexts(o.scopeValidators)
    && r.tokenBindingType == BindingText(o.tokenBinding)
    && r.oauthConsumerKey == key && r.oauthConsumerSecret == secret
  }

  /** A registration, whoever wrote it, that leaves nothing to correct. */
  predicate Agrees(r: OAuthRecord, o: OAuth2Spec) {
    && r.callbackURL == o.callbackURL
    && o.grantTypes == Of(Text.Split(r.grantTypes))
    && r.pkceMandatory == o.pkceMandatory && r.pkceSupportPlain == o.pkcePlain
    && r.bypassClientCredentials == o.publicClient
    && r.audiences == o.audiences
    && r.refreshTokenExpiryTime == o.refreshTokenExpiry && r.userAccessTokenExpiryTime == o.accessTokenExpiry
    && KnownTexts(r.scopeValidators) == ValidatorTexts(o.scopeValidators)
    && (r.tokenBindingType == "sso-session" <==> o.tokenBinding == "session")
    && (r.tokenBindingType == "cookie" <==> o.tokenBinding == "cookie")
  }

  lemma {:induction false} JoinSpells(words: seq<string>)
    ensures Spells(Text.Join(words), words)
  {
    if |words| > 1 {
      JoinSpells(words[1..]);
      var text := Text.Join(words);
      assert text == words[0] + [' '] + Text.Join(words[1..]);
      assert text[|words[0]| + 1..] == Text.Join(words[1..]);
    }
  }

  lemma {:induction false} TextsAppend(a: seq<string>, b: seq<string>)
    ensures ValidatorTexts(a + b) == ValidatorTexts(a) + ValidatorTexts(b)
  {
    if a == [] {
      assert a + b == b;
    } else {
      assert (a + b)[1..] == a[1..] + b;
      TextsAppend(a[1..], b);
    }
  }

  lemma {:induction false} KnownAppend(a: seq<string>, b: seq<string>)
    ensures KnownTexts(a + b) == KnownTexts(a) + KnownTexts(b)
  {
    if a == [] {
      assert a + b == b;
    } else {
      assert (a + b)[1..] == a[1..] + b;
      KnownAppend(a[1..], b);
    }
  }

  lemma OneText(name: string)
    ensures ValidatorTexts([name]) == ValidatorText(name)
  {
    assert [name][1..] == [];
  }

  lemma {:induction false} WrittenTexts(names: seq<string>)
    ensures Builder.ScopeValidators(Helpers.KnownScopes(names)) == ValidatorTexts(names)
  {
    if names != [] {
      var init, last := names[..|names| - 1], names[|names| - 1];
      WrittenTexts(init);
      assert names == init + [last];
      TextsAppend(init, [last]);
      OneText(last);
      var known := Helpers.KnownScopes(init);
      if last == "xacml" || last == "role" {
        assert (known + [last])[..|known|] == known;
      } else {
        assert Helpers.KnownScopes(names) == known + [] == known;
      }
    }
  }

  /** The names the operator reads are those of the known texts. */
  lemma {:induction false} ReadNames(texts: seq<string>)
    ensures ValidatorTexts(Mapper.ScopeNames(texts)) == KnownTexts(texts)
    ensures forall n | n in Mapper.ScopeNames(texts) :: n == "xacml" || n == "role"
  {
    ConstantsDiffer();
    if texts != [] {
      var init, last := texts[..|texts| - 1], texts[|texts| - 1];
      ReadNames(init);
      assert texts == init + [last];
      KnownAppend(init, [last]);
      var names := if last == XACML_VALIDATOR then ["xacml"] else if last == ROLE_VALIDATOR then ["role"] else [];
      TextsAppend(Mapper.ScopeNames(init), names);
      assert [last][1..] == [];
      assert names != [] ==> names[1..] == [] && ValidatorTexts(names) == [last];
      assert KnownTexts([last]) == if names == [] then [] else [last];
    }
  }

  lemma {:induction false} KnownNames(names: seq<string>)
    ensures forall n | n in Helpers.KnownScopes(names) :: n == "xacml" || n == "role"
    ensures ValidatorTexts(Helpers.KnownScopes(names)) == ValidatorTexts(names)
  {
    if names != [] {
      var init, last := names[..|names| - 1], names[|names| - 1];
      KnownNames(init);
      assert names == init + [last];
      TextsAppend(init, [last]);
      if last == "xacml" || last == "role" {
        TextsAppend(Helpers.KnownScopes(init), [last]);
      } else {
        assert [last][1..] == [] && ValidatorTexts([last]) == [];
        assert Helpers.KnownScopes(names) == Helpers.KnownScopes(init) + [] == Helpers.KnownScopes(init);
      }
    }
  }

  /** Among known names the texts tell the names apart. */
  lemma {:induction false} TextsTellNames(a: seq<string>, b: seq<string>)
    requires forall n | n in a :: n == "xacml" || n == "role"
    requires forall n | n in b :: n == "xacml" || n == "role"
    requires ValidatorTexts(a) == ValidatorTexts(b)
    ensures a == b
  {
    TextsDiffer();
    if a != [] { assert a[0] in a; }
    if b != [] { assert b[0] in b; }
    if a != [] && b != [] {
      assert forall n | n in a[1..] :: n in a;
      assert forall n | n in b[1..] :: n in b;
      assert ValidatorTexts(a)[0] == ValidatorText(a[0])[0] && ValidatorTexts(b)[0] == ValidatorText(b[0])[0];
      assert ValidatorTexts(a)[1..] == ValidatorTexts(a[1..]) && ValidatorTexts(b)[1..] == ValidatorTexts(b[1..]);
      TextsTellNames(a[1..], b[1..]);
      assert a == [a[0]] + a[1..] && b == [b[0]] + b[1..];
    }
  }

  lemma TextsDiffer()
    ensures "Role based scope validator" != "XACML Scope Validator"
    ensures "sso-session" != "cookie" && "sso-session" != "" && "session" != "cookie"
  {
    assert "Role based scope validator"[0] == 'R' && "XACML Scope Validator"[0] == 'X';
    assert "sso-session"[0] == 's' && "cookie"[0] == 'c' && "session"[0] == 's';
  }

  lemma ScopesAgree(texts: seq<string>, names: seq<string>)
    ensures Mapper.ScopeNames(texts) == Helpers.KnownScopes(names) <==> KnownTexts(texts) == ValidatorTexts(names)
  {
    ReadNames(texts);
    KnownNames(names);
    if KnownTexts(texts) == ValidatorTexts(names) {
      TextsTellNames(Mapper.ScopeNames(texts), Helpers.KnownScopes(names));
    }
  }

  lemma BindingsAgree(text: string, binding: string)
    ensures Mapper.MapTokenBinding(text) == Helpers.FilterTokenBindings(binding) <==>
            (text == "sso-session" <==> binding == "session") && (text == "cookie" <==> binding == "cookie")
  {
    TextsDiffer();
    assert "session" != "" && "cookie" != "";
  }

  /** The operator writes exactly what the spec says. */
  lemma BuiltRegisters(name: string, o: OAuth2Spec, key: string, secret: string)
    ensures Registers(Builder.BuildOAuthApplication(name,
              Helpers.OAuth2FromSpec(o).(oauthConsumerKey := key, oauthConsumerSecret := secret)), name, o, key, secret)
  {
    JoinSpells(o.grantTypes.Elems());
    WrittenTexts(o.scopeValidators);
  }

  /** A registration compares as unchanged if and only if it agrees with the spec in every field. */
  lemma UnchangedMeansAgrees(r: OAuthRecord, o: OAuth2Spec)
    ensures var read := Mapper.MapGetOAuthApplication(r);
            !Helpers.OAuth2HasChanged(read, Reconcile.DesiredOAuth(o, read)) <==> Agrees(r, o)
  {
    ScopesAgree(r.scopeValidators, o.scopeValidators);
    BindingsAgree(r.tokenBindingType, o.tokenBinding);
    var read := Mapper.MapGetOAuthApplication(r);
    var want := Reconcile.DesiredOAuth(o, read);
    assert read == want <==>
      && read.callbackURL == want.callbackURL && read.grantTypes == want.grantTypes
      && read.pkceMandatory == want.pkceMandatory && read.pkcePlain == want.pkcePlain
      && read.publicClient == want.publicClient && read.tokenBinding == want.tokenBinding
      && read.audiences == want.audiences && read.scopeValidators == want.scopeValidators
      && read.refreshTokenExpiry == want.refreshTokenExpiry && read.accessTokenExpiry == want.accessTokenExpiry;
  }

  // ---------------------------------------------------------------- SAML

  /** A registration, whoever made it, that leaves nothing to correct: only four fields are looked at. */
  predicate SamlAgrees(r: SAMLConfig, entityID: string, sp: SamlMetadata.SPDescriptor, s: SAMLSpec) {
    && r.issuer == entityID
    && SamlMetadata.LocationsState(r.acsURLs, sp.consumerServices)
    && r.enableAttributeProfile == s.enableAttributeProfile
    && r.enableAttributesByDefault == s.includeAttributesByDefault
  }

  /** A registration as the operator makes it: the metadata, the two flags of the spec, the server's index. */
  ghost predicate SamlRegisters(
    r: SAMLConfig, entityID: string, sp: SamlMetadata.SPDescriptor, s: SAMLSpec, index: string)
  {
    && SamlMetadata.SpStates(r.(attributeConsumingServiceIndex := ""), entityID, sp)
    && r.enableAttributeProfile == s.enableAttributeProfile
    && r.enableAttributesByDefault == s.includeAttributesByDefault
    && r.attributeConsumingServiceIndex == index
  }

  lemma SamlUnchangedMeansAgrees(r: SAMLConfig, env: World.Environment, s: SAMLSpec)
    requires Reconcile.Usable(env, s.metadataURL)
    ensures var ed := env.metadata[s.metadataURL];
            !Helpers.SamlSPHasChanged(r, Reconcile.DesiredSaml(env, s)) <==>
            SamlAgrees(r, ed.entityID, ed.sp.value, s)
  {
    var services := env.metadata[s.metadataURL].sp.value.consumerServices;
    if services != [] {
      assert SamlMetadata.LocationsState(r.acsURLs, services) <==>
             r.acsURLs == Of(SamlMetadata.Locations(services));
    }
  }

  /** The flags taken from the spec are none of the metadata's. */
  lemma FlagsAreTheSpecs(cfg: SAMLConfig, entityID: string, sp: SamlMetadata.SPDescriptor, s: SAMLSpec)
    requires SamlMetadata.SpStates(cfg, entityID, sp)
    ensures SamlMetadata.SpStates(cfg.(enableAttributeProfile := s.enableAttributeProfile,
                                       enableAttributesByDefault := s.includeAttributesByDefault), entityID, sp)
  {
  }

  lemma BuiltSamlRegisters(env: World.Environment, s: SAMLSpec, index: string)
    requires Reconcile.Usable(env, s.metadataURL)
    ensures var ed := env.metadata[s.metadataURL];
            SamlRegisters(Reconcile.DesiredSaml(env, s).(attributeConsumingServiceIndex := index),
                          ed.entityID, ed.sp.value, s, index)
  {
    var ed := env.metadata[s.metadataURL];
    var plain := SamlMetadata.SpConfig(ed.entityID, ed.sp.value);
    SamlMetadata.SpReductionStates(ed.entityID, ed.sp.value);
    FlagsAreTheSpecs(plain, ed.entityID, ed.sp.value, s);
    assert Reconcile.DesiredSaml(env, s).(attributeConsumingServiceIndex := "") == Reconcile.DesiredSaml(env, s);
  }

  // ---------------------------------------------------------------- applications

  /** One mapping per claim with the same URI on both sides, in ascending order of URIs; claims of one URI
      keep their order. */
  ghost predicate ClaimsState(mappings: seq<ClaimMapping>, claims: seq<Claim>) {
    && (forall m | m in mappings :: m.remoteURI == m.localURI && m.requested)
    && (forall i, j | 0 <= i < j < |mappings| :: !Text.Less(mappings[j].localURI, mappings[i].localURI))
    && multiset(ClaimsOf(mappings)) == multiset(claims) && Helpers.SameByURI(ClaimsOf(mappings), claims)
  }

  function ClaimsOf(mappings: seq<ClaimMapping>): seq<Claim> {
    seq(|mappings|, i requires 0 <= i < |mappings| => Claim(mappings[i].localURI, mappings[i].mandatory))
  }

  predicate StepStates(r: StepRecord, st: AuthenticationStep, subject: int, attributes: int) {
    && r.stepOrder == st.step
    && (r.subjectStep <==> st.step == subject) && (r.attributeStep <==> st.step == attributes)
    && |r.localAuthenticators| == |st.localAuthenticators|
    && (forall i | 0 <= i < |st.localAuthenticators| ::
          r.localAuthenticators[i] == Authenticator(st.localAuthenticators[i], true))
    && (if st.federatedIDP == "" && st.federatedAuthenticator == "" then r.federatedProviders == []
        else
          && |r.federatedProviders| == 1
          && r.federatedProviders[0].identityProviderName == st.federatedIDP
          && r.federatedProviders[0].authenticators ==
             if st.federatedAuthenticator == "" then [] else [Authenticator(st.federatedAuthenticator, true)])
  }

  predicate ScriptStates(c: ScriptConfig, script: string) {
    && c.content == script
    && (c.enabled <==> script != "")
    && c.language == if script == "" then "" else "application/javascript"
  }

  predicate OutboundStates(c: LocalOutbound, spec: SPSpec, script: string) {
    && c.alwaysSendBackAuthenticatedListOfIDPs == spec.alwaysSendBackAuthenticatedListOfIDPs
    && ScriptStates(c.script, script)
    && |c.steps| == |spec.authenticationSteps.Elems()|
    && (forall i | 0 <= i < |c.steps| ::
          StepStates(c.steps[i], spec.authenticationSteps.Elems()[i], spec.stepForSubject, spec.stepForAttributes))
    && c.authenticationType == "flow"
    && c.subjectClaimURI == spec.subjectClaimURI
    && c.enableAuthorization == spec.enableAuthorization
    && c.skipConsent == spec.skipConsent
    && c.skipLogoutConsent == spec.skipLogoutConsent
    && c.useTenantDomain == spec.useTenantInSub
    && c.useUserstoreDomain == spec.useUserstoreInSub
    && c.useUserstoreDomainInRoles == spec.useUserstoreInRoles
  }

  /** What goes out as inbound credentials. */
  datatype KeySet = KeySet(key: string, secret: string, issuer: string, index: string)

  /** An update request as the spec asks for it. */
  ghost predicate RequestStates(r: ServiceProviderRequest, spec: SPSpec, script: string, id: int, c: KeySet) {
    && r.applicationID == id
    && r.name == spec.name
    && r.description == spec.name + " -- " + spec.description
    && ClaimsState(r.claimMappings, spec.claims)
    && r.userClaimURI == spec.subjectClaimURI
    && r.inbound == [InboundEntry(c.key, "oauth2", "oauthConsumerSecret", c.secret),
                     InboundEntry(c.issuer, "samlsso", "attrConsumServiceIndex", c.index),
                     InboundEntry(spec.name, "openid", "", ""),
                     InboundEntry(spec.name, "passivests", "", "")]
    && OutboundStates(r.localOutbound, spec, script)
  }

  lemma MappingsState(claims: seq<Claim>)
    ensures var mappings := Builder.ClaimMappings(claims);
            && (forall m | m in mappings :: m.remoteURI == m.localURI && m.requested)
            && ClaimsOf(mappings) == claims
            && (forall i | 0 <= i < |mappings| :: mappings[i].localURI == claims[i].uri)
  {
  }

  lemma BuiltClaimsState(claims: seq<Claim>)
    ensures ClaimsState(Builder.ClaimMappings(Helpers.SortClaims(claims)), claims)
  {
    var sorted := Helpers.SortClaims(claims);
    MappingsState(sorted);
    Helpers.SortClaimsSorts(claims);
    Helpers.SortClaimsFixesSorted(sorted);
    Helpers.SortsAlikeExactly(sorted, claims);
    assert Helpers.SameByURI(ClaimsOf(Builder.ClaimMappings(sorted)), claims);
  }

  lemma BuiltOutboundStates(app: Application, spec: SPSpec, id: int, resourceID: string, script: string)
    requires app ==
             RoundTrip.Desired(spec, id, resourceID, script).(
               claims := app.claims, oauth2 := app.oauth2, saml := app.saml)
    ensures OutboundStates(Builder.BuildLocalAndOutboundConfig(app), spec, script)
  {
    var steps := spec.authenticationSteps.Elems();
    assert app.authenticationSteps.Elems() == steps;
    forall i | 0 <= i < |steps|
      ensures StepStates(Builder.StepRequests(app, steps)[i], steps[i], spec.stepForSubject, spec.stepForAttributes)
    {
    }
  }

  /** What is built from a desired record states the spec. */
  lemma BuiltRequestStates(
    spec: SPSpec, id: int, resourceID: string, script: string, oauth2: OAuth2Config, saml: SAMLConfig)
    ensures var app := RoundTrip.Outgoing(RoundTrip.Desired(spec, id, resourceID, script), oauth2, saml);
            RequestStates(Builder.BuildUpdateApplication(app), spec, script, id,
                          KeySet(oauth2.oauthConsumerKey, oauth2.oauthConsumerSecret,
                                 saml.issuer, saml.attributeConsumingServiceIndex))
  {
    var app := RoundTrip.Outgoing(RoundTrip.Desired(spec, id, resourceID, script), oauth2, saml);
    BuiltClaimsState(spec.claims);
    BuiltOutboundStates(app, spec, id, resourceID, script);
    BuiltInboundStates(app);
  }

  lemma BuiltInboundStates(app: Application)
    requires app.oauth2.Some? && app.saml.Some?
    ensures var o, s := app.oauth2.value, app.saml.value;
            Builder.BuildUpdateApplication(app).inbound ==
            [InboundEntry(o.oauthConsumerKey, "oauth2", "oauthConsumerSecret", o.oauthConsumerSecret),
             InboundEntry(s.issuer, "samlsso", "attrConsumServiceIndex", s.attributeConsumingServiceIndex),
             InboundEntry(app.name, "openid", "", ""),
             InboundEntry(app.name, "passivests", "", "")]
  {
  }

  // ---------------------------------------------------------------- what is in sync

  predicate StepReads(r: StepRecord, st: AuthenticationStep) {
    && r.stepOrder == st.step
    && |r.localAuthenticators| == |st.localAuthenticators|
    && (forall i | 0 <= i < |st.localAuthenticators| :: r.localAuthenticators[i].name == st.localAuthenticators[i])
    && (if r.federatedProviders == [] then st.federatedIDP == "" && st.federatedAuthenticator == ""
        else
          && st.federatedIDP == r.federatedProviders[0].identityProviderName
          && r.federatedProviders[0].authenticators != []
          && st.federatedAuthenticator == r.federatedProviders[0].authenticators[0].name)
  }

  /** The selector is the number of the last flagged step; 0 if none is, 1 without steps. */
  predicate Selects(steps: seq<StepRecord>, flags: seq<bool>, selector: int)
    requires |flags| == |steps|
  {
    && (steps == [] ==> selector == 1)
    && (steps != [] && (forall i | 0 <= i < |flags| :: !flags[i]) ==> selector == 0)
    && (forall k | 0 <= k < |flags| && flags[k] && (forall j | k < j < |flags| :: !flags[j]) ::
      selector == steps[k].stepOrder)
  }

  function SubjectFlags(steps: seq<StepRecord>): seq<bool> {
    seq(|steps|, i requires 0 <= i < |steps| => steps[i].subjectStep)
  }

  function AttributeFlags(steps: seq<StepRecord>): seq<bool> {
    seq(|steps|, i requires 0 <= i < |steps| => steps[i].attributeStep)
  }

  predicate StepsAgree(c: LocalOutbound, spec: SPSpec) {
    && |c.steps| == |spec.authenticationSteps.Elems()|
    && (forall i | 0 <= i < |c.steps| :: StepReads(c.steps[i], spec.authenticationSteps.Elems()[i]))
    && Selects(c.steps, SubjectFlags(c.steps), spec.stepForSubject)
    && Selects(c.steps, AttributeFlags(c.steps), spec.stepForAttributes)
  }

  predicate OutboundAgrees(c: LocalOutbound, spec: SPSpec, script: string) {
    && c.script.content == script
    && StepsAgree(c, spec)
    && c.subjectClaimURI == spec.subjectClaimURI
    && c.enableAuthorization == spec.enableAuthorization
    && c.skipConsent == spec.skipConsent
    && c.skipLogoutConsent == spec.skipLogoutConsent
    && c.useTenantDomain == spec.useTenantInSub
    && c.useUserstoreDomain == spec.useUserstoreInSub
    && c.useUserstoreDomainInRoles == spec.useUserstoreInRoles
  }

  predicate HasKeyed(inbound: seq<InboundEntry>, authType: string) {
    exists e | e in inbound :: e.authType == authType && e.key != ""
  }

  /** Stored content, whoever wrote it, that leaves nothing to correct. */
  ghost predicate ContentAgrees(c: ServiceProviderRequest, spec: SPSpec, script: string) {
    && c.name == spec.name
    && c.description == spec.name + " -- " + spec.description
    && Helpers.SameByURI(ClaimsOf(c.claimMappings), spec.claims)
    && (HasKeyed(c.inbound, "oauth2") <==> spec.oauth2.Some?)
    && (HasKeyed(c.inbound, "samlsso") <==> spec.saml.Some?)
    && !spec.alwaysSendBackAuthenticatedListOfIDPs
    && OutboundAgrees(c.localOutbound, spec, script)
  }

  lemma SelectsOneMore(init: seq<StepRecord>, flags: seq<bool>, selector: int, last: StepRecord, flag: bool)
    requires |flags| == |init| && (init != [] ==> Selects(init, flags, selector)) && (init == [] ==> selector == 0)
    ensures Selects(init + [last], flags + [flag], if flag then last.stepOrder else selector)
  {
    var more := flags + [flag];
    if flag {
      assert more[|init|];
    } else {
      forall k | 0 <= k < |more| && more[k] && (forall j | k < j < |more| :: !more[j])
        ensures selector == (init + [last])[k].stepOrder
      {
        assert flags[k] && forall j | k < j < |flags| :: flags[j] == more[j];
      }
      assert forall j | 0 <= j < |flags| :: flags[j] == more[j];
    }
  }

  lemma {:induction false} SubjectSelects(steps: seq<StepRecord>)
    ensures steps != [] ==> Selects(steps, SubjectFlags(steps), Mapper.SubjectOrder(steps))
  {
    if steps != [] {
      var init, last := steps[..|steps| - 1], steps[|steps| - 1];
      SubjectSelects(init);
      SelectsOneMore(init, SubjectFlags(init), Mapper.SubjectOrder(init), last, last.subjectStep);
      assert steps == init + [last] && SubjectFlags(steps) == SubjectFlags(init) + [last.subjectStep];
    }
  }

  lemma {:induction false} AttributesSelect(steps: seq<StepRecord>)
    ensures steps != [] ==> Selects(steps, AttributeFlags(steps), Mapper.AttributeOrder(steps))
  {
    if steps != [] {
      var init, last := steps[..|steps| - 1], steps[|steps| - 1];
      AttributesSelect(init);
      SelectsOneMore(init, AttributeFlags(init), Mapper.AttributeOrder(init), last, last.attributeStep);
      assert steps == init + [last] && AttributeFlags(steps) == AttributeFlags(init) + [last.attributeStep];
    }
  }

  /** Some flag is set, and none after it; or none is. */
  lemma {:induction false} LastFlag(flags: seq<bool>) returns (k: int)
    ensures -1 <= k < |flags| && (k >= 0 ==> flags[k]) && forall j | k < j < |flags| :: !flags[j]
  {
    k := |flags| - 1;
    if flags != [] && !flags[k] {
      k := LastFlag(flags[..k]);
      forall j | k < j < |flags| ensures !flags[j] {
        assert j < |flags| - 1 ==> flags[j] == flags[..|flags| - 1][j];
      }
    }
  }

  lemma SelectsOne(steps: seq<StepRecord>, flags: seq<bool>, x: int, y: int)
    requires |flags| == |steps| && Selects(steps, flags, x) && Selects(steps, flags, y)
    ensures x == y
  {
    var k := LastFlag(flags);
    if k >= 0 {
      assert x == steps[k].stepOrder == y;
    }
  }

  lemma StepReadsExactly(r: StepRecord, st: AuthenticationStep)
    ensures Mapper.ReadableStep(r) && Mapper.MapStep(r) == st <==> StepReads(r, st)
  {
    if Mapper.ReadableStep(r) && StepReads(r, st) {
      assert Mapper.LocalNames(r.localAuthenticators) == st.localAuthenticators;
    }
  }

  lemma StepListExactly(steps: seq<StepRecord>, want: seq<AuthenticationStep>)
    ensures Mapper.Readable(steps) && Mapper.MapSteps(steps) == want <==>
            |steps| == |want| && forall i | 0 <= i < |steps| :: StepReads(steps[i], want[i])
  {
    forall i | 0 <= i < |steps| && i < |want|
      ensures steps[i] in steps
      ensures Mapper.ReadableStep(steps[i]) && Mapper.MapStep(steps[i]) == want[i] <==> StepReads(steps[i], want[i])
    {
      StepReadsExactly(steps[i], want[i]);
    }
  }

  /** The steps and selectors read back are the spec's if and only if the wire records say so. */
  lemma StepsInSync(c: LocalOutbound, spec: SPSpec)
    ensures Mapper.StepsOf(c.steps) ==
            Mapper.Good(Mapper.StepsRead(Helpers.StepsFromSpec(spec.authenticationSteps),
                                         spec.stepForSubject, spec.stepForAttributes)) <==>
            StepsAgree(c, spec)
  {
    StepListExactly(c.steps, spec.authenticationSteps.Elems());
    SubjectSelects(c.steps);
    AttributesSelect(c.steps);
    if c.steps != [] && Selects(c.steps, SubjectFlags(c.steps), spec.stepForSubject) {
      SelectsOne(c.steps, SubjectFlags(c.steps), Mapper.SubjectOrder(c.steps), spec.stepForSubject);
    }
    if c.steps != [] && Selects(c.steps, AttributeFlags(c.steps), spec.stepForAttributes) {
      SelectsOne(c.steps, AttributeFlags(c.steps), Mapper.AttributeOrder(c.steps), spec.stepForAttributes);
    }
  }

  lemma KeptIsKeyed(inbound: seq<InboundEntry>, authType: string)
    ensures Mapper.HasInbound(KeepKeyed(inbound), authType) <==> HasKeyed(inbound, authType)
  {
    forall e ensures e in KeepKeyed(inbound) <==> e in inbound && e.key != "" {
      KeptEntries(inbound, e);
    }
  }

  /** The parts of what is read back that the comparison looks at. */
  lemma UnchangedFieldwise(read: Application, want: Application)
    ensures !Helpers.AppHasChanged(read, want) <==>
            && read.name == want.name && read.description == want.description
            && Helpers.SameByURI(read.claims, want.claims)
            && read.subjectClaimURI == want.subjectClaimURI && read.oauth2 == want.oauth2 && read.saml == want.saml
            && read.authenticationSteps == want.authenticationSteps
            && read.authenticationScript == want.authenticationScript
            && read.alwaysSendBackAuthenticatedListOfIDPs == want.alwaysSendBackAuthenticatedListOfIDPs
            && read.enableAuthorization == want.enableAuthorization
            && read.skipConsent == want.skipConsent && read.skipLogoutConsent == want.skipLogoutConsent
            && read.useTenantInSub == want.useTenantInSub && read.useUserstoreInSub == want.useUserstoreInSub
            && read.useUserstoreInRoles == want.useUserstoreInRoles
            && read.stepForSubject == want.stepForSubject && read.stepForAttributes == want.stepForAttributes
  {
    Helpers.SortsAlikeExactly(read.claims, want.claims);
  }

  /** An application can be read and compares as unchanged if and only if its stored content agrees with
      the spec in every field. */
  lemma UnchangedMeansContentAgrees(s: StoredApp, spec: SPSpec, id: int, resourceID: string, script: string)
    ensures var read := Mapper.MapGetApplication(EchoApplication(s));
            read.Good? && !Helpers.AppHasChanged(read.value, RoundTrip.Desired(spec, id, resourceID, script)) <==>
            ContentAgrees(s.content, spec, script)
  {
    var mapped, want := Mapper.MapGetApplication(EchoApplication(s)), RoundTrip.Desired(spec, id, resourceID, script);
    StepsInSync(s.content.localOutbound, spec);
    KeptIsKeyed(s.content.inbound, "oauth2");
    KeptIsKeyed(s.content.inbound, "samlsso");
    RoundTrip.EnabledDecides(HasKeyed(s.content.inbound, "oauth2"), spec.oauth2.Some?,
                             HasKeyed(s.content.inbound, "samlsso"), spec.saml.Some?);
    if mapped.Good? {
      UnchangedFieldwise(mapped.value, want);
      assert mapped.value.claims == ClaimsOf(s.content.claimMappings);
    }
  }
}
