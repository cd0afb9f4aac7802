/** What arrival and quiet mean, in terms of the stored records: the registrations, the application's content, the
    Secret and the status say, field by field, what the spec and the metadata say. */
module Arrival {
  import opened Wrappers
  import opened Application
  import opened Server
  import opened World
  import opened Reconcile
  import opened Accounts
  import opened Wire
  import Convergence
  import Mapper
  import RoundTrip
  import Secrets
  import Settling

  /** The script the spec asks for; blank if it asks for none, or there is none. */
  function ScriptOf(env: Environment, spec: SPSpec): string {
    ScriptText(env, spec, NO_FAULTS).UnwrapOr("")
  }

  lemma OAuthInSyncExactly(oauth: map<string, OAuthRecord>, d: Declared)
    requires d.spec.oauth2.Some?
    ensures Convergence.OAuthInSync(oauth, d) <==>
            d.spec.name in oauth && Agrees(oauth[d.spec.name], d.spec.oauth2.value)
  {
    if d.spec.name in oauth {
      UnchangedMeansAgrees(oauth[d.spec.name], d.spec.oauth2.value);
    }
  }

  lemma AppInSyncExactly(apps: map<string, StoredApp>, env: Environment, spec: SPSpec)
    ensures Convergence.AppInSync(apps, env, spec) <==>
            spec.name in apps && ContentAgrees(apps[spec.name].content, spec, ScriptOf(env, spec))
  {
    ScriptIs(env, spec, 0, "", NO_FAULTS);
    if spec.name in apps {
      UnchangedMeansContentAgrees(apps[spec.name], spec, 0, "", ScriptOf(env, spec));
    }
  }

  /** A registration agrees with the spec, and its credentials are in the Secret. */
  predicate OAuthArrived(w: World, d: Declared) {
    FollowsOAuth(d) ==>
      && d.spec.name in w.oauth
      && var r := w.oauth[d.spec.name];
         && Agrees(r, d.spec.oauth2.value)
         && (r.oauthConsumerKey != "" ==> Held(w.secret, "client_id") == r.oauthConsumerKey)
         && (r.oauthConsumerSecret != "" ==> Held(w.secret, "client_secret") == r.oauthConsumerSecret)
  }

  /** There is a registration under the metadata's entity ID, and the Secret holds its issuer and index. */
  predicate SamlArrived(w: World, d: Declared) {
    var target := TargetOf(w.env, d, NO_FAULTS);
    target.Some? ==>
      && SamlRegistered(w.saml, target.value.entityID)
      && var r := w.saml[target.value.entityID];
         && Held(w.secret, "saml_issuer") == r.issuer
         && (r.attributeConsumingServiceIndex != "" ==>
               Held(w.secret, "saml_attrConsumingServiceIndex") == r.attributeConsumingServiceIndex)
  }

  /** The object says Ready with the application's identifiers, and the administrator's access is recorded. */
  predicate StatusArrived(sp: SP, apps: map<string, StoredApp>) {
    && sp.declared.spec.name in apps
    && var s := apps[sp.declared.spec.name];
       sp.status == Status(s.id, s.resourceID, Ready, true, "Application in sync (ID: " + s.resourceID + ")")
  }

  /** Whatever of the spec can survive a round trip is what is stored. */
  ghost predicate ContentArrived(w: World, spec: SPSpec) {
    RoundTrip.ApplicationSettles(spec)
      && (spec.oauth2.Some? ==> Held(w.secret, "client_id") != "")
      && (spec.saml.Some? ==> Held(w.secret, "saml_issuer") != "") ==>
      spec.name in w.apps && ContentAgrees(w.apps[spec.name].content, spec, ScriptOf(w.env, spec))
  }

  lemma OAuthArrivedIs(w: World, d: Declared)
    ensures OAuthArrived(w, d) <==>
            Convergence.OAuthRank(w.oauth, d) == 0 && Convergence.OAuthSecretAgrees(w.secret, w.oauth, d)
  {
    SwitchesAre(d);
    KeysDiffer();
    if FollowsOAuth(d) {
      OAuthInSyncExactly(w.oauth, d);
      if d.spec.name in w.oauth {
        var kv := OAuthKeys(Mapper.MapGetOAuthApplication(w.oauth[d.spec.name]));
        Secrets.AgreementMeans(w.secret, kv);
        assert kv[CLIENT_ID] == w.oauth[d.spec.name].oauthConsumerKey;
        assert kv[CLIENT_SECRET] == w.oauth[d.spec.name].oauthConsumerSecret;
        assert Secrets.Get(w.secret, CLIENT_ID) == Held(w.secret, "client_id");
        assert Secrets.Get(w.secret, CLIENT_SECRET) == Held(w.secret, "client_secret");
      }
    }
  }

  lemma SamlArrivedIs(w: World, d: Declared)
    ensures SamlArrived(w, d) <==>
            Convergence.SamlRank(w.saml, w.env, d) == 0
              && Convergence.SamlSecretAgrees(w.secret, w.saml, w.env, d)
  {
    SwitchesAre(d);
    KeysDiffer();
    var target := TargetOf(w.env, d, NO_FAULTS);
    assert target.Some? <==> SamlActive(d) && Usable(w.env, d.spec.saml.value.metadataURL);
    if target.Some? {
      TargetIs(w.env, d, NO_FAULTS);
      var r := ReadSaml(w.saml, target.value.entityID);
      Secrets.AgreementMeans(w.secret, SamlKeys(r));
      assert SamlKeys(r)[SAML_ISSUER] == r.issuer && SamlKeys(r)[SAML_INDEX] == r.attributeConsumingServiceIndex;
      assert Secrets.Get(w.secret, SAML_ISSUER) == Held(w.secret, "saml_issuer");
      assert Secrets.Get(w.secret, SAML_INDEX) == Held(w.secret, "saml_attrConsumingServiceIndex");
    }
  }

  lemma ContentArrivedIs(w: World, spec: SPSpec)
    ensures ContentArrived(w, spec) <==>
            (Convergence.Settles(w.secret, spec) ==> Convergence.AppInSync(w.apps, w.env, spec))
  {
    AppInSyncExactly(w.apps, w.env, spec);
  }

  /** A world has arrived if and only if what is stored says so. */
  lemma ArrivedExactly(w: World)
    ensures Convergence.Arrived(w) <==>
            && w.stored.Some? && "wso2.it.auth.gr/sp-finalizer" in w.stored.value.finalizers
            && OAuthArrived(w, w.stored.value.declared) && SamlArrived(w, w.stored.value.declared)
            && ContentArrived(w, w.stored.value.declared.spec) && StatusArrived(w.stored.value, w.apps)
  {
    if w.stored.Some? {
      OAuthArrivedIs(w, w.stored.value.declared);
      SamlArrivedIs(w, w.stored.value.declared);
      ContentArrivedIs(w, w.stored.value.declared.spec);
    }
  }

  /** Convergence, in terms of what is stored: after any passes that fail, six that do not leave the registration,
      the application, the Secret and the object saying what the spec says. */
  lemma SixPassesBringAbout(w: World, faulty: seq<(Faults, Answers)>, clean: seq<(Faults, Answers)>)
    requires Convergence.Manageable(w) && Settling.AllSane(faulty) && Settling.AllSane(clean)
    requires Settling.AllClean(clean) && |clean| >= 6
    ensures var v := Passes(Passes(w, faulty), clean);
            && v.stored.Some? && "wso2.it.auth.gr/sp-finalizer" in v.stored.value.finalizers
            && OAuthArrived(v, v.stored.value.declared) && SamlArrived(v, v.stored.value.declared)
            && ContentArrived(v, v.stored.value.declared.spec) && StatusArrived(v.stored.value, v.apps)
  {
    Settling.ConvergesWithinSix(w, faulty, clean);
    ArrivedExactly(Passes(Passes(w, faulty), clean));
  }

  /** Only reads, and reports to the object. */
  predicate OnlyReads(log: seq<Event>) {
    forall e | e in log :: e.AppRead? || e.OAuthRead? || e.SamlRead? || e.StatusSent?
  }

  lemma OnlyReadsIs(log: seq<Event>)
    ensures OnlyReads(log) <==> Settling.Quiet(log)
  {
  }

  /** Quiet, in terms of what is stored: after arrival a pass sends nothing that changes WSO2 if and only if the
      stored content agrees with the spec in every field. */
  lemma QuietExactly(w: World, a: Answers)
    requires Convergence.Manageable(w) && Convergence.Arrived(w) && Convergence.Sane(a)
    ensures var spec := w.stored.value.declared.spec;
            OnlyReads(Run(w, NO_FAULTS, a).log) <==>
            spec.name in w.apps && ContentAgrees(w.apps[spec.name].content, spec, ScriptOf(w.env, spec))
  {
    OnlyReadsIs(Run(w, NO_FAULTS, a).log);
    Settling.QuietExactlyWhenInSync(w, a);
    AppInSyncExactly(w.apps, w.env, w.stored.value.declared.spec);
  }
}
