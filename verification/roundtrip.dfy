/** Writing a record to WSO2 and reading it back: when does the operator see no change? */
module RoundTrip {
  import opened Wrappers
  import opened Application
  import opened Server
  import Builder
  import Helpers
  import Mapper
  import Text

  // ---------------------------------------------------------------- OAuth

  /** What an OAuth spec must satisfy for its registration ever to compare as unchanged. */
  predicate OAuthSettles(o: OAuth2Spec) {
    && !o.publicClient
    && o.grantTypes.Elems() != []
    && Text.Spaceless(o.grantTypes.Elems())
  }

  lemma TokenBindingRoundTrip(binding: string)
    ensures Mapper.MapTokenBinding(Builder.BuildTokenBindingType(Helpers.FilterTokenBindings(binding)))
         == Helpers.FilterTokenBindings(binding)
  {
    ConstantsDiffer();
  }

  /** The two validator names are exchanged on the way out and exchanged back on the way in. */
  lemma {:induction false} ScopesRoundTrip(names: seq<string>)
    ensures Mapper.ScopeNames(Builder.ScopeValidators(Helpers.KnownScopes(names))) == Helpers.KnownScopes(names)
  {
    if names != [] {
      var init, last := names[..|names| - 1], names[|names| - 1];
      ScopesRoundTrip(init);
      ConstantsDiffer();
      var known := Helpers.KnownScopes(init);
      if last == "xacml" || last == "role" {
        assert (known + [last])[..|known|] == known;
        var sent := Builder.ScopeValidators(known);
        var v := if last == "xacml" then XACML_VALIDATOR else ROLE_VALIDATOR;
        assert Builder.ScopeValidators(known + [last]) == sent + [v];
        assert (sent + [v])[..|sent|] == sent;
      } else {
        assert Helpers.KnownScopes(names) == known;
      }
    }
  }

  /** A registration built from a spec, stored under any credentials and read back, compares as
      unchanged exactly for the settling specs. */
  lemma OAuthRoundTrip(name: string, o: OAuth2Spec, clientID: string, clientSecret: string)
    ensures var desired := Helpers.OAuth2FromSpec(o).(oauthConsumerKey := clientID,
        oauthConsumerSecret := clientSecret);
            var back := Mapper.MapGetOAuthApplication(Builder.BuildOAuthApplication(name, desired));
            !Helpers.OAuth2HasChanged(back, desired) <==> OAuthSettles(o)
  {
    TokenBindingRoundTrip(o.tokenBinding);
    ScopesRoundTrip(o.scopeValidators);
    Text.SplitJoinExact(o.grantTypes.Elems());
  }

  /** Whatever the server holds: a registration only ever compares as unchanged when it agrees with the spec
      field by field, so the grant types must be acceptable and nothing may be bypassed that the spec does not
      bypass. (`Wire.UnchangedMeansAgrees` has scopes and binding as well, and the converse.) */
  lemma OAuthUnchangedMeans(r: OAuthRecord, o: OAuth2Spec, clientID: string, clientSecret: string)
    requires !Helpers.OAuth2HasChanged(
               Mapper.MapGetOAuthApplication(r),
               Helpers.OAuth2FromSpec(o).(oauthConsumerKey := clientID, oauthConsumerSecret := clientSecret))
    ensures o.callbackURL == r.callbackURL && o.audiences == r.audiences
    ensures o.pkceMandatory == r.pkceMandatory && o.pkcePlain == r.pkceSupportPlain
    ensures o.refreshTokenExpiry == r.refreshTokenExpiryTime && o.accessTokenExpiry == r.userAccessTokenExpiryTime
    ensures o.publicClient == r.bypassClientCredentials
    ensures o.grantTypes == Of(Text.Split(r.grantTypes))
    ensures o.grantTypes.Elems() != [] && Text.Spaceless(o.grantTypes.Elems())
  {
    assert Mapper.MapGetOAuthApplication(r).grantTypes == o.grantTypes;
    assert o.grantTypes.Elems() == Text.Split(r.grantTypes);
  }

  // ---------------------------------------------------------------- application

  /** Every step with an identity provider also names an authenticator. */
  predicate StepsNamed(steps: seq<AuthenticationStep>) {
    forall c | c in steps :: c.federatedIDP != "" ==> c.federatedAuthenticator != ""
  }

  /** A step selector survives: 1 without steps, otherwise 0 or the number of some step. */
  predicate SelectorSettles(selector: int, steps: seq<AuthenticationStep>) {
    if steps == [] then selector == 1
    else selector == 0 || exists c | c in steps :: c.step == selector
  }

  predicate ApplicationSettles(spec: SPSpec) {
    && !spec.alwaysSendBackAuthenticatedListOfIDPs
    && SelectorSettles(spec.stepForSubject, spec.authenticationSteps.Elems())
    && SelectorSettles(spec.stepForAttributes, spec.authenticationSteps.Elems())
  }

  lemma StepReadable(app: Application, c: AuthenticationStep)
    ensures Mapper.ReadableStep(Builder.StepRequest(app, c)) <==>
            (c.federatedIDP != "" ==> c.federatedAuthenticator != "")
    ensures Mapper.ReadableStep(Builder.StepRequest(app, c)) ==> Mapper.MapStep(Builder.StepRequest(app, c)) == c
  {
    var r := Builder.StepRequest(app, c);
    assert Mapper.LocalNames(r.localAuthenticators) == c.localAuthenticators;
  }

  lemma StepsRoundTrip(app: Application, steps: seq<AuthenticationStep>)
    ensures Mapper.Readable(Builder.StepRequests(app, steps)) <==> StepsNamed(steps)
    ensures StepsNamed(steps) ==> Mapper.MapSteps(Builder.StepRequests(app, steps)) == steps
  {
    var sent := Builder.StepRequests(app, steps);
    forall i | 0 <= i < |steps|
      ensures sent[i] in sent
      ensures Mapper.ReadableStep(sent[i]) <==> (steps[i].federatedIDP != "" ==> steps[i].federatedAuthenticator != "")
      ensures Mapper.ReadableStep(sent[i]) ==> Mapper.MapStep(sent[i]) == steps[i]
    {
      StepReadable(app, steps[i]);
    }
    if Mapper.Readable(sent) {
      forall c | c in steps ensures c.federatedIDP != "" ==> c.federatedAuthenticator != "" {
        var i :| 0 <= i < |steps| && steps[i] == c;
        assert sent[i] in sent;
      }
    }
  }

  /** The subject selector read back is the selector sent if some step carries it, else 0. */
  lemma {:induction false} SubjectReadBack(app: Application, steps: seq<AuthenticationStep>)
    ensures Mapper.SubjectOrder(Builder.StepRequests(app, steps))
         == if exists c | c in steps :: c.step == app.stepForSubject then app.stepForSubject else 0
  {
    if steps != [] {
      var init, last := steps[..|steps| - 1], steps[|steps| - 1];
      SubjectReadBack(app, init);
      assert steps == init + [last];
      assert Builder.StepRequests(app, steps)[..|init|] == Builder.StepRequests(app, init);
    }
  }

  lemma {:induction false} AttributesReadBack(app: Application, steps: seq<AuthenticationStep>)
    ensures Mapper.AttributeOrder(Builder.StepRequests(app, steps))
         == if exists c | c in steps :: c.step == app.stepForAttributes then app.stepForAttributes else 0
  {
    if steps != [] {
      var init, last := steps[..|steps| - 1], steps[|steps| - 1];
      AttributesReadBack(app, init);
      assert steps == init + [last];
      assert Builder.StepRequests(app, steps)[..|init|] == Builder.StepRequests(app, init);
    }
  }

  lemma ClaimsRoundTrip(claims: seq<Claim>)
    ensures Mapper.Claims(Builder.ClaimMappings(claims)) == claims
  {
  }

  /** An inbound kind is read back as present exactly when its key was not blank. */
  lemma InboundReadBack(app: Application)
    requires app.oauth2.Some? && app.saml.Some?
    ensures var kept := KeepKeyed(Builder.InboundConfig(app));
            && (Mapper.HasInbound(kept, Builder.OAUTH2_TYPE) <==> app.oauth2.value.oauthConsumerKey != "")
            && (Mapper.HasInbound(kept, Builder.SAML_TYPE) <==> app.saml.value.issuer != "")
  {
    ConstantsDiffer();
    var sent := Builder.InboundConfig(app);
    var oauth, saml := Builder.OAuthEntry(app.oauth2.value), Builder.SamlEntry(app.saml.value);
    assert sent ==
      [oauth, saml, InboundEntry(app.name, "openid", "", ""), InboundEntry(app.name, "passivests", "", "")];
    assert sent[0] == oauth && sent[1] == saml && oauth in sent && saml in sent;
    forall e ensures e in KeepKeyed(sent) <==> e in sent && e.key != "" {
      KeptEntries(sent, e);
    }
  }

  /** The record as sent: claims already sorted in place by the comparison, keys filled from the Secret. */
  function Outgoing(desired: Application, oauth2: OAuth2Config, saml: SAMLConfig): Application {
    desired.(claims := Helpers.SortClaims(desired.claims), oauth2 := Some(oauth2), saml := Some(saml))
  }

  function Desired(spec: SPSpec, id: int, resourceID: string, script: string): Application {
    Helpers.ApplicationFromSpec(spec, id, resourceID).(authenticationScript := script)
  }

  function SelectorReadBack(selector: int, steps: seq<AuthenticationStep>): int {
    if steps == [] then 1
    else if exists c | c in steps :: c.step == selector then selector
    else 0
  }

  lemma StepsReadBack(app: Application, steps: seq<AuthenticationStep>)
    ensures Mapper.StepsOf(Builder.StepRequests(app, steps)) ==
            if StepsNamed(steps) then
              Mapper.Good(Mapper.StepsRead(Helpers.StepsFromSpec(Of(steps)),
                                           SelectorReadBack(app.stepForSubject, steps),
                                           SelectorReadBack(app.stepForAttributes, steps)))
            else Mapper.Panic
  {
    StepsRoundTrip(app, steps);
    SubjectReadBack(app, steps);
    AttributesReadBack(app, steps);
    assert |Builder.StepRequests(app, steps)| == |steps|;
  }

  /** What the operator reads after writing `spec` with the given inbound configurations. */
  function ReadBack(spec: SPSpec, script: string, oauth2: OAuth2Config, saml: SAMLConfig, id: int,
    resourceID: string): Application {
    var steps := spec.authenticationSteps.Elems();
    Desired(spec, id, resourceID, script).(
      claims := Helpers.SortClaims(spec.claims),
      oauth2 := Some(BLANK_OAUTH.(enabled := oauth2.oauthConsumerKey != "")),
      saml := Some(BLANK_SAML.(enabled := saml.issuer != "")),
      alwaysSendBackAuthenticatedListOfIDPs := false,
      stepForSubject := SelectorReadBack(spec.stepForSubject, steps),
      stepForAttributes := SelectorReadBack(spec.stepForAttributes, steps))
  }

  lemma WriteThenReadSteps(out: Application, storedID: int, storedResourceID: string)
    requires out.oauth2.Some? && out.saml.Some?
    ensures var steps := out.authenticationSteps.Elems();
            var back := Mapper.MapGetApplication(
                          EchoApplication(StoredApp(storedID, storedResourceID, Builder.BuildUpdateApplication(out))));
            && (back.Panic? <==> !StepsNamed(steps))
            && (back.Good? ==>
                  back.value == out.(
                    id := storedID, resourceID := storedResourceID,
                    oauth2 := Some(BLANK_OAUTH.(enabled := out.oauth2.value.oauthConsumerKey != "")),
                    saml := Some(BLANK_SAML.(enabled := out.saml.value.issuer != "")),
                    authenticationSteps := Helpers.StepsFromSpec(Of(steps)),
                    alwaysSendBackAuthenticatedListOfIDPs := false,
                    stepForSubject := SelectorReadBack(out.stepForSubject, steps),
                    stepForAttributes := SelectorReadBack(out.stepForAttributes, steps)))
  {
    StepsReadBack(out, out.authenticationSteps.Elems());
    ClaimsRoundTrip(out.claims);
    InboundReadBack(out);
  }

  lemma WriteThenRead(
    spec: SPSpec, id: int, resourceID: string, script: string,
    oauth2: OAuth2Config, saml: SAMLConfig, storedID: int, storedResourceID: string)
    ensures var sent := Builder.BuildUpdateApplication(Outgoing(Desired(spec, id, resourceID, script), oauth2, saml));
            Mapper.MapGetApplication(EchoApplication(StoredApp(storedID, storedResourceID, sent))) ==
            if StepsNamed(spec.authenticationSteps.Elems())
            then Mapper.Good(ReadBack(spec, script, oauth2, saml, storedID, storedResourceID))
            else Mapper.Panic
  {
    WriteThenReadSteps(Outgoing(Desired(spec, id, resourceID, script), oauth2, saml), storedID, storedResourceID);
  }

  lemma SelectorReadBackSettles(selector: int, steps: seq<AuthenticationStep>)
    ensures SelectorReadBack(selector, steps) == selector <==> SelectorSettles(selector, steps)
  {
  }

  lemma EnabledDecides(a: bool, b: bool, c: bool, d: bool)
    ensures Some(BLANK_OAUTH.(enabled := a)) == Some(BLANK_OAUTH.(enabled := b)) <==> a == b
    ensures Some(BLANK_SAML.(enabled := c)) == Some(BLANK_SAML.(enabled := d)) <==> c == d
  {
    assert Some(BLANK_OAUTH.(enabled := a)).value.enabled == a;
    assert Some(BLANK_SAML.(enabled := c)).value.enabled == c;
  }

  /** Up to normalisation, only five fields of what is read back can differ from what is desired. */
  lemma ReadBackDifference(
    spec: SPSpec, script: string, oauth2: OAuth2Config, saml: SAMLConfig,
    storedID: int, storedResourceID: string, laterID: int, laterResourceID: string)
    ensures var back := Helpers.Normalize(ReadBack(spec, script, oauth2, saml, storedID, storedResourceID));
            back == Helpers.Normalize(Desired(spec, laterID, laterResourceID, script)).(
                      oauth2 := back.oauth2, saml := back.saml, alwaysSendBackAuthenticatedListOfIDPs := false,
                      stepForSubject := back.stepForSubject, stepForAttributes := back.stepForAttributes)
  {
    Helpers.SortClaimsSorts(spec.claims);
    Helpers.SortClaimsFixesSorted(Helpers.SortClaims(spec.claims));
  }

  lemma ReadBackUnchanged(
    spec: SPSpec, script: string, oauth2: OAuth2Config, saml: SAMLConfig,
    storedID: int, storedResourceID: string, laterID: int, laterResourceID: string)
    ensures !Helpers.AppHasChanged(ReadBack(spec, script, oauth2, saml, storedID, storedResourceID),
                                   Desired(spec, laterID, laterResourceID, script)) <==>
            && ApplicationSettles(spec)
            && (oauth2.oauthConsumerKey != "" <==> spec.oauth2.Some?)
            && (saml.issuer != "" <==> spec.saml.Some?)
  {
    ReadBackDifference(spec, script, oauth2, saml, storedID, storedResourceID, laterID, laterResourceID);
    EnabledDecides(oauth2.oauthConsumerKey != "", spec.oauth2.Some?, saml.issuer != "", spec.saml.Some?);
    SelectorReadBackSettles(spec.stepForSubject, spec.authenticationSteps.Elems());
    SelectorReadBackSettles(spec.stepForAttributes, spec.authenticationSteps.Elems());
  }

  /** Update, store, read back, compare with the desired state computed afresh on the next pass:
      reading panics exactly when some federated step names no authenticator; otherwise the verdict
      is "unchanged" exactly when the spec settles and each inbound kind went out with a key if and
      only if the spec declares it. */
  lemma ApplicationRoundTrip(
    spec: SPSpec, id: int, resourceID: string, script: string,
    oauth2: OAuth2Config, saml: SAMLConfig,
    storedID: int, storedResourceID: string, laterID: int, laterResourceID: string)
    ensures var sent := Builder.BuildUpdateApplication(Outgoing(Desired(spec, id, resourceID, script), oauth2, saml));
            var back := Mapper.MapGetApplication(EchoApplication(StoredApp(storedID, storedResourceID, sent)));
            var later := Desired(spec, laterID, laterResourceID, script);
            && (back.Panic? <==> !StepsNamed(spec.authenticationSteps.Elems()))
            && (back.Good? ==>
                 (!Helpers.AppHasChanged(back.value, later) <==>
                    && ApplicationSettles(spec)
                    && (oauth2.oauthConsumerKey != "" <==> spec.oauth2.Some?)
                    && (saml.issuer != "" <==> spec.saml.Some?)))
  {
    WriteThenRead(spec, id, resourceID, script, oauth2, saml, storedID, storedResourceID);
    ReadBackUnchanged(spec, script, oauth2, saml, storedID, storedResourceID, laterID, laterResourceID);
  }

  lemma {:induction false} OrderIsAStep(steps: seq<StepRecord>)
    requires Mapper.Readable(steps)
    ensures Mapper.SubjectOrder(steps) == 0 || exists c | c in Mapper.MapSteps(steps) ::
        c.step == Mapper.SubjectOrder(steps)
    ensures Mapper.AttributeOrder(steps) == 0 || exists c | c in Mapper.MapSteps(steps) ::
        c.step == Mapper.AttributeOrder(steps)
  {
    if steps != [] {
      var init, last := steps[..|steps| - 1], steps[|steps| - 1];
      assert steps == init + [last];
      OrderIsAStep(init);
      assert Mapper.MapSteps(steps) == Mapper.MapSteps(init) + [Mapper.MapStep(last)];
    }
  }

  /** Whatever the server holds: an application only ever compares as unchanged for a settling spec. */
  lemma UnchangedMeansSettles(r: ServiceProviderResponse, spec: SPSpec, id: int, resourceID: string, script: string)
    requires Mapper.MapGetApplication(r).Good?
    requires !Helpers.AppHasChanged(Mapper.MapGetApplication(r).value, Desired(spec, id, resourceID, script))
    ensures ApplicationSettles(spec)
  {
    var back, want := Mapper.MapGetApplication(r).value, Desired(spec, id, resourceID, script);
    assert back.authenticationSteps == Helpers.StepsFromSpec(spec.authenticationSteps);
    assert back.stepForSubject == spec.stepForSubject && back.stepForAttributes == spec.stepForAttributes;
    if r.localOutbound.steps != [] {
      OrderIsAStep(r.localOutbound.steps);
      assert spec.authenticationSteps.Elems() == Mapper.MapSteps(r.localOutbound.steps);
    }
  }
}
