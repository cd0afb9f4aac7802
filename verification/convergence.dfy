/** Does the loop settle? A measure that no pass can raise, that every fault-free pass lowers, and
    whose zero is a fixpoint. */
module Convergence {
  import opened Wrappers
  import opened Application
  import opened Server
  import opened World
  import opened Reconcile
  import Builder
  import Helpers
  import Mapper
  import RoundTrip
  import Secrets

  // ---------------------------------------------------------------- what is asked of the start state

  function Script(env: Environment, spec: SPSpec): string {
    if WantsScript(spec) && spec.authenticationScript.value in env.configMaps
    then Lookup(env.configMaps[spec.authenticationScript.value], "script") else ""
  }

  function Issuer(env: Environment, d: Declared): string
    requires SamlActive(d) && Usable(env, d.spec.saml.value.metadataURL)
  {
    DesiredSaml(env, d.spec.saml.value).issuer
  }

  /** The declaration can be honoured at all. */
  predicate DeclarationOperable(d: Declared, env: Environment) {
    && !d.deleting && !Skip(RECONCILE_APP, d.annotations)
    && InstanceReady(env, d.spec)
    && (WantsScript(d.spec) ==> d.spec.authenticationScript.value in env.configMaps)
    && (SamlActive(d) ==> Usable(env, d.spec.saml.value.metadataURL))
    && RoundTrip.StepsNamed(d.spec.authenticationSteps.Elems())
  }

  /** Its OAuth part, if it is followed, survives a round trip or needs none. */
  predicate OAuthManageable(oauth: map<string, OAuthRecord>, d: Declared) {
    OAuthActive(d) ==> RoundTrip.OAuthSettles(d.spec.oauth2.value) || OAuthInSync(oauth, d)
  }

  predicate OAuthSane(oauth: map<string, OAuthRecord>, name: string) {
    name in oauth ==> oauth[name].oauthConsumerKey != ""
  }

  /** No registration under the issuer disagrees with the metadata. */
  predicate SamlSane(saml: map<string, SAMLConfig>, env: Environment, d: Declared) {
    SamlActive(d) && Usable(env, d.spec.saml.value.metadataURL) && ReadSaml(saml, Issuer(env, d)).issuer != "" ==>
      !Helpers.SamlSPHasChanged(ReadSaml(saml, Issuer(env, d)), DesiredSaml(env, d.spec.saml.value))
  }

  predicate AppSane(apps: map<string, StoredApp>, dir: Directory, name: string) {
    name in apps ==> Mapper.Readable(apps[name].content.localOutbound.steps) && GroupKnown(dir, name)
  }

  predicate Operable(w: World) {
    && w.stored.Some?
    && var d := w.stored.value.declared;
       && DeclarationOperable(d, w.env)
       && OAuthSane(w.oauth, d.spec.name) && SamlSane(w.saml, w.env, d) && AppSane(w.apps, w.dir, d.spec.name)
  }

  predicate Manageable(w: World) {
    Operable(w) && OAuthManageable(w.oauth, w.stored.value.declared)
  }

  /** The server hands out non-blank client identifiers and readable defaults. */
  predicate Sane(a: Answers) {
    a.clientID != "" && Mapper.Readable(a.bareApp.localOutbound.steps)
  }

  // ---------------------------------------------------------------- the measure

  predicate OAuthInSync(oauth: map<string, OAuthRecord>, d: Declared)
    requires d.spec.oauth2.Some?
  {
    d.spec.name in oauth &&
    var existing := Mapper.MapGetOAuthApplication(oauth[d.spec.name]);
    !Helpers.OAuth2HasChanged(existing, DesiredOAuth(d.spec.oauth2.value, existing))
  }

  function OAuthRank(oauth: map<string, OAuthRecord>, d: Declared): nat {
    if OAuthActive(d) && !OAuthInSync(oauth, d) then 1 else 0
  }

  function SamlRank(saml: map<string, SAMLConfig>, env: Environment, d: Declared): nat {
    if SamlActive(d) && Usable(env, d.spec.saml.value.metadataURL) && ReadSaml(saml, Issuer(env, d)).issuer == ""
      then 1 else 0
  }

  predicate AppInSync(apps: map<string, StoredApp>, env: Environment, spec: SPSpec) {
    spec.name in apps &&
    var read := Mapper.MapGetApplication(EchoApplication(apps[spec.name]));
    read.Good? && !Helpers.AppHasChanged(read.value, RoundTrip.Desired(spec, 0, "", Script(env, spec)))
  }

  /** 2 when missing, 1 when drifted, 0 in sync. */
  function AppRank(apps: map<string, StoredApp>, env: Environment, spec: SPSpec): nat {
    if spec.name !in apps then 2 else if AppInSync(apps, env, spec) then 0 else 1
  }

  function AdminRank(dir: Directory, name: string): nat {
    if AdminMember(dir, name) then 0 else 1
  }

  /** How far WSO2 is from the desired state. */
  function RemoteRank(w: World): nat
    requires w.stored.Some?
  {
    var d := w.stored.value.declared;
    OAuthRank(w.oauth, d) + SamlRank(w.saml, w.env, d) + AppRank(w.apps, w.env, d.spec) + AdminRank(w.dir, d.spec.name)
  }

  predicate OAuthSecretAgrees(secret: SecretData, oauth: map<string, OAuthRecord>, d: Declared) {
    OAuthActive(d) && d.spec.name in oauth ==>
      Upserted(secret, OAuthKeys(Mapper.MapGetOAuthApplication(oauth[d.spec.name]))) == secret
  }

  predicate SamlSecretAgrees(secret: SecretData, saml: map<string, SAMLConfig>, env: Environment, d: Declared) {
    SamlActive(d) && Usable(env, d.spec.saml.value.metadataURL) ==>
      Upserted(secret, SamlKeys(ReadSaml(saml, Issuer(env, d)))) == secret
  }

  /** Every declared kind has its key in the Secret. */
  predicate KeysAtHand(secret: SecretData, spec: SPSpec) {
    && (spec.oauth2.Some? ==> Secrets.Get(secret, CLIENT_ID) != "")
    && (spec.saml.Some? ==> Secrets.Get(secret, SAML_ISSUER) != "")
  }

  /** An update sent with this Secret reads back as unchanged. */
  predicate Settles(secret: SecretData, spec: SPSpec) {
    RoundTrip.ApplicationSettles(spec) && KeysAtHand(secret, spec)
  }

  predicate StatusSettled(st: Status, apps: map<string, StoredApp>, name: string) {
    name in apps &&
    var s := apps[name];
    st == Status(s.id, s.resourceID, Ready, true, InSyncMessage(s.resourceID))
  }

  /** Everything agrees, as far as the spec allows, and the persisted status says so. */
  predicate Arrived(w: World) {
    && w.stored.Some?
    && var d := w.stored.value.declared;
       && SP_FINALIZER in w.stored.value.finalizers
       && OAuthRank(w.oauth, d) == 0 && SamlRank(w.saml, w.env, d) == 0
       && (Settles(w.secret, d.spec) ==> AppInSync(w.apps, w.env, d.spec))
       && OAuthSecretAgrees(w.secret, w.oauth, d) && SamlSecretAgrees(w.secret, w.saml, w.env, d)
       && StatusSettled(w.stored.value.status, w.apps, d.spec.name)
  }

  /** The number of things still missing or drifted, the application's content aside. */
  function Distance(w: World): nat
    requires w.stored.Some?
  {
    var d := w.stored.value.declared;
    (if SP_FINALIZER in w.stored.value.finalizers then 0 else 1) +
    OAuthRank(w.oauth, d) + SamlRank(w.saml, w.env, d) + (if d.spec.name in w.apps then 0 else 1) +
    (if w.stored.value.status.adminCanView || AdminMember(w.dir, d.spec.name) then 0 else 1)
  }

  /** The distance, and one more pass to arrive. */
  function Rank(w: World): nat
    requires w.stored.Some?
  {
    Distance(w) + if Arrived(w) then 0 else 1
  }

  lemma RankAtMostSix(w: World)
    requires w.stored.Some?
    ensures Rank(w) <= 6
    ensures Rank(w) == 0 <==> Arrived(w)
  {
  }

  // ---------------------------------------------------------------- no pass makes things worse

  /** Progress is never undone between two states. */
  predicate Evolves(w: World, v: World) {
    && w.stored.Some? && v.stored.Some? && v.env == w.env
    && var d := w.stored.value.declared;
       && v.stored.value.declared == d
       && w.stored.value.finalizers <= v.stored.value.finalizers
       && (w.stored.value.status.adminCanView ==> v.stored.value.status.adminCanView)
       && Manageable(v)
       && OAuthRank(v.oauth, d) <= OAuthRank(w.oauth, d)
       && SamlRank(v.saml, w.env, d) <= SamlRank(w.saml, w.env, d)
       && AppRank(v.apps, w.env, d.spec) <= AppRank(w.apps, w.env, d.spec)
       && AdminRank(v.dir, d.spec.name) <= AdminRank(w.dir, d.spec.name)
  }

  lemma EvolvesTransitive(u: World, v: World, w: World)
    requires Evolves(u, v) && Evolves(v, w)
    ensures Evolves(u, w)
  {
  }

  /** The in-memory object is the persisted one but for a status that may run ahead. */
  predicate InMemory(p: Pass) {
    && p.w.stored.Some? && p.sp.declared == p.w.stored.value.declared && p.sp.finalizers == p.w.stored.value.finalizers
    && (p.w.stored.value.status.adminCanView ==> p.sp.status.adminCanView)
  }

  lemma StatusEvolves(w: World, st: Status)
    requires Manageable(w) && (w.stored.value.status.adminCanView ==> st.adminCanView)
    ensures Evolves(w, PutStatus(w, st))
  {
  }

  lemma SetPhaseEvolves(p: Pass, phase: Phase, msg: string, site: Site, f: Faults)
    requires Manageable(p.w) && InMemory(p)
    ensures var q := SetPhase(p, phase, msg, site, f).p; Evolves(p.w, q.w) && InMemory(q)
  {
    StatusEvolves(p.w, p.sp.status.(phase := phase, message := msg));
  }

  lemma SecretEvolves(w: World, kv: map<string, string>)
    requires Manageable(w)
    ensures Evolves(w, w.(secret := Upserted(w.secret, kv)))
  {
  }

  /** A registration as the operator leaves it compares as unchanged. */
  lemma RegistrationInSync(oauth: map<string, OAuthRecord>, d: Declared, clientID: string, clientSecret: string)
    requires d.spec.oauth2.Some? && RoundTrip.OAuthSettles(d.spec.oauth2.value) && clientID != ""
    ensures var desired := Helpers.OAuth2FromSpec(d.spec.oauth2.value).(
                             oauthConsumerKey := clientID, oauthConsumerSecret := clientSecret);
            var r := Builder.BuildOAuthApplication(d.spec.name, desired);
            && OAuthInSync(oauth[d.spec.name := r], d) && r.oauthConsumerKey == clientID
            && RegisterOAuth(Builder.BuildOAuthApplication(d.spec.name, Helpers.OAuth2FromSpec(d.spec.oauth2.value)),
                             clientID, clientSecret) == r
  {
    RoundTrip.OAuthRoundTrip(d.spec.name, d.spec.oauth2.value, clientID, clientSecret);
  }

  lemma OAuthWriteEvolves(w: World, r: OAuthRecord)
    requires Manageable(w) && OAuthActive(w.stored.value.declared)
    requires var d := w.stored.value.declared;
             OAuthInSync(w.oauth[d.spec.name := r], d) && r.oauthConsumerKey != ""
    ensures Evolves(w, WithOAuth(w, w.stored.value.declared.spec.name, r))
  {
  }

  lemma UpsertSecretEvolves(p: Pass, kv: map<string, string>, getSite: Site, writeSite: Site, f: Faults)
    requires Manageable(p.w) && InMemory(p)
    ensures var q := UpsertSecret(p, kv, getSite, writeSite, f).0;
            Evolves(p.w, q.w) && InMemory(q) && q.sp == p.sp && q.w == p.w.(secret := q.w.secret)
  {
    SecretEvolves(p.w, kv);
  }

  /** A step that may fail, and whose failure is then recorded. */
  lemma ThenSetPhaseEvolves(w: World, q: Pass, phase: Phase, msg: string, site: Site, f: Faults)
    requires Evolves(w, q.w) && InMemory(q)
    ensures var r := SetPhase(q, phase, msg, site, f).p; Evolves(w, r.w) && InMemory(r)
  {
    SetPhaseEvolves(q, phase, msg, site, f);
    EvolvesTransitive(w, q.w, SetPhase(q, phase, msg, site, f).p.w);
  }

  lemma Same(w: World)
    requires Manageable(w)
    ensures Evolves(w, w)
  {
  }

  lemma OAuthCreateEvolves(p: Pass, f: Faults, a: Answers)
    requires Manageable(p.w) && InMemory(p) && Sane(a) && OAuthActive(p.sp.declared)
    requires p.sp.declared.spec.name !in p.w.oauth && At(f, OAuthTransport).Fine? && At(f, OAuthGet).Fine?
    ensures var q := ReconcileOAuth2(p, f, a).p; Evolves(p.w, q.w) && InMemory(q)
  {
    var d := p.sp.declared;
    var fault := At(f, OAuthCreate);
    RegistrationInSync(p.w.oauth, d, a.clientID, a.clientSecret);
    var r := RegisterOAuth(Builder.BuildOAuthApplication(d.spec.name, Helpers.OAuth2FromSpec(d.spec.oauth2.value)),
                           a.clientID, a.clientSecret);
    OAuthWriteEvolves(p.w, r);
    Same(p.w);
    var q := p.(w := if fault.Applied() then WithOAuth(p.w, d.spec.name, r) else p.w,
                log := p.log + [OAuthRead(None), OAuthCreated(d.spec.name)]);
    if fault.Fail? {
      ThenSetPhaseEvolves(p.w, q, Failed, fault.err, OAuthStatus, f);
    }
  }

  lemma OAuthUpdateEvolves(p: Pass, existing: OAuth2Config, f: Faults)
    requires Manageable(p.w) && InMemory(p) && OAuthActive(p.sp.declared)
    requires p.sp.declared.spec.name in p.w.oauth
        && existing == Mapper.MapGetOAuthApplication(p.w.oauth[p.sp.declared.spec.name])
    ensures var q := CorrectOAuth2(p, existing, f).p; Evolves(p.w, q.w) && InMemory(q)
  {
    var d := p.sp.declared;
    UpsertSecretEvolves(p, OAuthKeys(existing), OAuthSecretGet, OAuthSecretWrite, f);
    var (q, ok) := UpsertSecret(p, OAuthKeys(existing), OAuthSecretGet, OAuthSecretWrite, f);
    var desired := DesiredOAuth(d.spec.oauth2.value, existing);
    if ok && Helpers.OAuth2HasChanged(existing, desired) {
      var fault := At(f, OAuthUpdate);
      RegistrationInSync(q.w.oauth, d, existing.oauthConsumerKey, existing.oauthConsumerSecret);
      var rec := Builder.BuildOAuthApplication(d.spec.name, desired);
      OAuthWriteEvolves(q.w, rec);
      Same(q.w);
      var r := q.(w := if fault.Applied() then WithOAuth(q.w, d.spec.name, rec) else q.w,
                  log := q.log + [OAuthUpdated(d.spec.name)]);
      EvolvesTransitive(p.w, q.w, r.w);
      if fault.Fail? {
        ThenSetPhaseEvolves(p.w, r, Failed, fault.err, OAuthStatus, f);
      }
    }
  }

  lemma OAuthStageEvolves(p: Pass, f: Faults, a: Answers)
    requires Manageable(p.w) && InMemory(p) && Sane(a)
    ensures var q := OAuthStage(p, f, a).p; Evolves(p.w, q.w) && InMemory(q)
  {
    Same(p.w);
    if OAuthActive(p.sp.declared) && At(f, OAuthTransport).Fine? {
      if At(f, OAuthGet).Fail? {
        SetPhaseEvolves(p, Failed, At(f, OAuthGet).err, OAuthStatus, f);
      } else if p.sp.declared.spec.name !in p.w.oauth {
        OAuthCreateEvolves(p, f, a);
      } else {
        var existing := Mapper.MapGetOAuthApplication(p.w.oauth[p.sp.declared.spec.name]);
        OAuthUpdateEvolves(p.(log := p.log + [OAuthRead(Some(existing.oauthConsumerKey))]), existing, f);
      }
    }
  }

  // ---------------------------------------------------------------- SAML stage

  lemma SamlAddEvolves(w: World, a: Answers)
    requires Manageable(w) && SamlActive(w.stored.value.declared)
    requires ReadSaml(w.saml, Issuer(w.env, w.stored.value.declared)).issuer == ""
    ensures var d := w.stored.value.declared;
            var v := AddSaml(w, DesiredSaml(w.env, d.spec.saml.value), a);
            Evolves(w, v) && SamlRank(v.saml, w.env, d) == 0
  {
  }

  lemma SamlCreateEvolves(p: Pass, f: Faults, a: Answers)
    requires Manageable(p.w) && InMemory(p) && SamlActive(p.sp.declared)
    requires At(f, MetadataFetch).Fine? && At(f, SamlGet).Fine?
    requires ReadSaml(p.w.saml, Issuer(p.w.env, p.sp.declared)).issuer == ""
    ensures var q := ReconcileSAML(p, f, a).p; Evolves(p.w, q.w) && InMemory(q)
  {
    var desired := DesiredSaml(p.w.env, p.sp.declared.spec.saml.value);
    var fault := At(f, SamlCreate);
    SamlAddEvolves(p.w, a);
    Same(p.w);
    var q := p.(w := if fault.Applied() then AddSaml(p.w, desired, a) else p.w,
                log := p.log + [SamlRead("")] + [SamlAdded(desired.issuer)]);
    if fault.Fail? {
      ThenSetPhaseEvolves(p.w, q, Failed, fault.err, SamlStatus, f);
    }
  }

  lemma SamlStageEvolves(p: Pass, f: Faults, a: Answers)
    requires Manageable(p.w) && InMemory(p)
    ensures var q := SamlStage(p, f, a).p; Evolves(p.w, q.w) && InMemory(q)
  {
    Same(p.w);
    if SamlActive(p.sp.declared) {
      if At(f, MetadataFetch).Fail? {
        SetPhaseEvolves(p, Failed, "saml metadata fetch failed: " + At(f, MetadataFetch).err, SamlStatus, f);
      } else if At(f, SamlGet).Fail? {
        SetPhaseEvolves(p, Failed, At(f, SamlGet).err, SamlStatus, f);
      } else {
        var existing := ReadSaml(p.w.saml, Issuer(p.w.env, p.sp.declared));
        if existing.issuer == "" {
          SamlCreateEvolves(p, f, a);
        } else {
          var p1 := p.(log := p.log + [SamlRead(existing.issuer)]);
          UpsertSecretEvolves(p1, SamlKeys(existing), SamlSecretGet, SamlSecretWrite, f);
        }
      }
    }
  }

  // ---------------------------------------------------------------- application stage

  lemma CreateAppEvolves(w: World, desired: Application, a: Answers)
    requires Manageable(w) && Sane(a) && desired.name == w.stored.value.declared.spec.name && desired.name !in w.apps
    ensures Evolves(w, CreateApp(w, desired, a)) && desired.name in CreateApp(w, desired, a).apps
  {
  }

  lemma CreateApplicationEvolves(p: Pass, f: Faults, a: Answers)
    requires Manageable(p.w) && InMemory(p) && Sane(a) && p.sp.declared.spec.name !in p.w.apps
    ensures var q := CreateApplication(p, f, a).p; Evolves(p.w, q.w) && InMemory(q)
  {
    var desired := Helpers.ApplicationFromSpec(p.sp.declared.spec, p.sp.status.id, p.sp.status.resourceID);
    var fault := At(f, AppCreate);
    CreateAppEvolves(p.w, desired, a);
    Same(p.w);
    var q := p.(w := if fault.Applied() then CreateApp(p.w, desired, a) else p.w,
                log := p.log + [AppRead(None), AppCreated(desired.name)]);
    assert Evolves(p.w, q.w) && InMemory(q);
    if fault.Fail? {
      ThenSetPhaseEvolves(p.w, q, Failed, "create failed: " + fault.err, AppStatus, f);
    } else {
      var st := p.sp.status.(phase := Pending, message := CREATED_MESSAGE);
      StatusEvolves(q.w, MergePatch(q.w.stored.value.status, p.sp.status, st));
      EvolvesTransitive(p.w, q.w, PatchStatus(q.w, p.sp.status, st));
    }
  }

  lemma JoinEvolves(w: World)
    requires Manageable(w) && GroupKnown(w.dir, w.stored.value.declared.spec.name)
    ensures var name := w.stored.value.declared.spec.name;
            var v := JoinAdmin(w, w.dir.groups[name]);
            Evolves(w, v) && AdminMember(v.dir, name)
  {
  }

  lemma AdminAccessEvolves(p: Pass, f: Faults)
    requires Manageable(p.w) && InMemory(p)
    ensures var q := AdminAccess(p, f).p; Evolves(p.w, q.w) && InMemory(q)
  {
    var name := p.sp.declared.spec.name;
    Same(p.w);
    if p.sp.status.adminCanView {
    } else if At(f, GroupGet).Fail? || !GroupKnown(p.w.dir, name) {
      SetPhaseEvolves(p, Failed, "admin group lookup failed: " + ErrorText(At(f, GroupGet)), AdminStatus, f);
    } else if ADMIN !in MembersOf(p.w.dir, p.w.dir.groups[name]) {
      JoinEvolves(p.w);
      var fault, groupID := At(f, GroupJoin), p.w.dir.groups[name];
      var q := p.(w := if fault.Applied() then JoinAdmin(p.w, groupID) else p.w, log := p.log + [GroupJoined(groupID)]);
      if fault.Fail? {
        ThenSetPhaseEvolves(p.w, q, Failed, "admin group update failed: " + fault.err, AdminStatus, f);
      }
    }
  }

  lemma FinishEvolves(p: Pass, base: Status, resourceID: string, f: Faults)
    requires Manageable(p.w) && InMemory(p)
    requires base.adminCanView ==> p.sp.status.adminCanView
    ensures var q := Finish(p, base, resourceID, f).p; Evolves(p.w, q.w) && InMemory(q)
  {
    var marked := p.(sp := p.sp.(status := p.sp.status.(phase := Ready, message := InSyncMessage(resourceID))));
    AdminAccessEvolves(marked, f);
    var admin := AdminAccess(marked, f);
    AdminAccessKeepsFlag(marked, f);
    if admin.out.Zero? {
      StatusEvolves(admin.p.w, MergePatch(admin.p.w.stored.value.status, base, admin.p.sp.status));
      EvolvesTransitive(p.w, admin.p.w, PatchStatus(admin.p.w, base, admin.p.sp.status));
    }
  }

  lemma AdminAccessKeepsFlag(p: Pass, f: Faults)
    ensures p.sp.status.adminCanView ==> AdminAccess(p, f).p.sp.status.adminCanView
  {
  }

  lemma DesiredAppIsDesired(env: Environment, spec: SPSpec, id: int, resourceID: string, f: Faults)
    requires DesiredApp(env, spec, id, resourceID, f).Some?
    ensures DesiredApp(env, spec, id, resourceID, f).value == RoundTrip.Desired(spec, id, resourceID, Script(env, spec))
  {
  }

  /** The verdict does not depend on the identifiers the desired record was built with. */
  lemma VerdictIgnoresIdentity(existing: Application, spec: SPSpec, id: int, resourceID: string, script: string)
    ensures Helpers.AppHasChanged(existing, RoundTrip.Desired(spec, id, resourceID, script))
        <==> Helpers.AppHasChanged(existing, RoundTrip.Desired(spec, 0, "", script))
  {
  }

  /** The configurations that go out with an update. */
  function SentOAuth(secret: SecretData, spec: SPSpec): OAuth2Config {
    var plain := BLANK_OAUTH.(enabled := spec.oauth2.Some?);
    if spec.oauth2.Some? then InboundOAuth(secret, Some(plain)).value else plain
  }

  function SentSaml(secret: SecretData, spec: SPSpec): SAMLConfig {
    var plain := BLANK_SAML.(enabled := spec.saml.Some?);
    if spec.saml.Some? then InboundSaml(secret, Some(plain)).value else plain
  }

  function OutgoingApp(secret: SecretData, env: Environment, spec: SPSpec, id: int, resourceID: string): Application {
    RoundTrip.Outgoing(RoundTrip.Desired(spec, id, resourceID, Script(env, spec)), SentOAuth(secret, spec),
      SentSaml(secret, spec))
  }

  lemma PopulatedIsOutgoing(secret: SecretData, env: Environment, spec: SPSpec, id: int, resourceID: string, f: Faults)
    ensures var desired := RoundTrip.Desired(spec, id, resourceID, Script(env, spec));
            var filled := PopulateInbound(secret, spec, desired.(claims := Helpers.SortClaims(desired.claims)), f);
            filled.Some? ==> filled.value == OutgoingApp(secret, env, spec, id, resourceID)
  {
  }

  lemma SentKeys(secret: SecretData, spec: SPSpec)
    ensures SentOAuth(secret, spec).oauthConsumerKey == if spec.oauth2.Some? then Secrets.Get(secret, CLIENT_ID) else ""
    ensures SentSaml(secret, spec).issuer == if spec.saml.Some? then Secrets.Get(secret, SAML_ISSUER) else ""
  {
  }

  /** A stored update stays readable, and is in sync exactly when the spec settles with the Secret at hand. */
  lemma StoredUpdate(secret: SecretData, env: Environment, spec: SPSpec, id: int, resourceID: string, s: StoredApp)
    requires RoundTrip.StepsNamed(spec.authenticationSteps.Elems())
    ensures var request := Builder.BuildUpdateApplication(OutgoingApp(secret, env, spec, id, resourceID));
            var read := Mapper.MapGetApplication(EchoApplication(s.(content := request)));
            && Mapper.Readable(request.localOutbound.steps) && read.Good?
            && (!Helpers.AppHasChanged(read.value, RoundTrip.Desired(spec, 0, "", Script(env, spec))) <==>
                  Settles(secret, spec))
  {
    var oauth2, saml, script := SentOAuth(secret, spec), SentSaml(secret, spec), Script(env, spec);
    RoundTrip.ApplicationRoundTrip(spec, id, resourceID, script, oauth2, saml, s.id, s.resourceID, 0, "");
    SentKeys(secret, spec);
    RoundTrip.StepsRoundTrip(OutgoingApp(secret, env, spec, id, resourceID), spec.authenticationSteps.Elems());
  }

  lemma UpdateEvolves(w: World, id: int, resourceID: string)
    requires Manageable(w) && w.stored.value.declared.spec.name in w.apps
    requires !AppInSync(w.apps, w.env, w.stored.value.declared.spec)
    ensures var spec := w.stored.value.declared.spec;
            var v := UpdateApp(w, OutgoingApp(w.secret, w.env, spec, id, resourceID));
            && Evolves(w, v) && v == w.(apps := v.apps) && spec.name in v.apps
            && v.apps[spec.name].id == w.apps[spec.name].id
            && v.apps[spec.name].resourceID == w.apps[spec.name].resourceID
            && (AppInSync(v.apps, w.env, spec) <==> Settles(w.secret, spec))
  {
    var spec := w.stored.value.declared.spec;
    StoredUpdate(w.secret, w.env, spec, id, resourceID, w.apps[spec.name]);
  }

  lemma SendUpdateEvolves(p: Pass, id: int, resourceID: string, f: Faults)
    requires Manageable(p.w) && InMemory(p) && p.sp.declared.spec.name in p.w.apps
    requires !AppInSync(p.w.apps, p.w.env, p.sp.declared.spec)
    ensures var spec := p.sp.declared.spec;
            var (s, ok) := SendUpdate(p, RoundTrip.Desired(spec, id, resourceID, Script(p.w.env, spec)), f);
            && Evolves(p.w, s.p.w) && InMemory(s.p)
            && (ok ==> s.p.sp == p.sp)
  {
    var spec := p.sp.declared.spec;
    var desired := RoundTrip.Desired(spec, id, resourceID, Script(p.w.env, spec));
    PopulatedIsOutgoing(p.w.secret, p.w.env, spec, id, resourceID, f);
    var filled := PopulateInbound(p.w.secret, spec, desired.(claims := Helpers.SortClaims(desired.claims)), f);
    Same(p.w);
    if filled.None? {
      SetPhaseEvolves(p, Failed, InboundErrorMessage(spec, f), AppStatus, f);
    } else {
      UpdateEvolves(p.w, id, resourceID);
      var fault := At(f, AppUpdate);
      var q := p.(w := if fault.Applied() then UpdateApp(p.w, filled.value) else p.w,
                  log := p.log + [AppUpdated(Builder.BuildUpdateApplication(filled.value))]);
      assert Evolves(p.w, q.w) && InMemory(q);
      if fault.Fail? {
        ThenSetPhaseEvolves(p.w, q, Failed, "update failed: " + fault.err, AppStatus, f);
      }
    }
  }

  /** The stored application as this stage reads it. */
  predicate ReadAs(p: Pass, existing: Application) {
    && p.sp.declared.spec.name in p.w.apps
    && Mapper.MapGetApplication(EchoApplication(p.w.apps[p.sp.declared.spec.name])) == Mapper.Good(existing)
  }

  lemma SyncEvolves(p: Pass, existing: Application, f: Faults)
    requires Manageable(p.w) && InMemory(p) && ReadAs(p, existing)
    ensures var q := SyncApplication(p, existing, f).p; Evolves(p.w, q.w) && InMemory(q)
  {
    var spec, base := p.sp.declared.spec, p.sp.status;
    var q := p.(sp := p.sp.(status := p.sp.status.(id := existing.id, resourceID := existing.resourceID)),
                log := p.log + [AppRead(Some((existing.id, existing.resourceID)))]);
    var want := DesiredApp(p.w.env, spec, base.id, base.resourceID, f);
    if want.None? {
      SetPhaseEvolves(q, Failed, "failed to get auth script configmap: " + ErrorText(At(f, ScriptGet)), AppStatus, f);
    } else {
      DesiredAppIsDesired(p.w.env, spec, base.id, base.resourceID, f);
      VerdictIgnoresIdentity(existing, spec, base.id, base.resourceID, Script(p.w.env, spec));
      if !Helpers.AppHasChanged(existing, want.value) {
        FinishEvolves(q, base, existing.resourceID, f);
      } else {
        SendUpdateEvolves(q, base.id, base.resourceID, f);
        var (sent, ok) := SendUpdate(q, want.value, f);
        if ok {
          FinishEvolves(sent.p, base, existing.resourceID, f);
          EvolvesTransitive(p.w, sent.p.w, Finish(sent.p, base, existing.resourceID, f).p.w);
        }
      }
    }
  }

  lemma CoreEvolves(p: Pass, f: Faults, a: Answers)
    requires Manageable(p.w) && InMemory(p) && Sane(a)
    ensures var q := ReconcileCore(p, f, a).p; Evolves(p.w, q.w) && InMemory(q)
  {
    var name := p.sp.declared.spec.name;
    Same(p.w);
    if At(f, AppGet).Fail? {
      SetPhaseEvolves(p, Failed, At(f, AppGet).err, AppStatus, f);
    } else if name !in p.w.apps {
      CreateApplicationEvolves(p, f, a);
    } else {
      var read := Mapper.MapGetApplication(EchoApplication(p.w.apps[name]));
      if read.Good? {
        SyncEvolves(p, read.value, f);
      }
    }
  }

  lemma ReconcileApplicationEvolves(p: Pass, f: Faults, a: Answers)
    requires Manageable(p.w) && InMemory(p) && Sane(a)
    ensures Evolves(p.w, ReconcileApplication(p, f, a).p.w)
  {
    OAuthStageEvolves(p, f, a);
    var oauth := OAuthStage(p, f, a);
    if oauth.out.Zero? {
      SamlStageEvolves(oauth.p, f, a);
      var saml := SamlStage(oauth.p, f, a);
      EvolvesTransitive(p.w, oauth.p.w, saml.p.w);
      if saml.out.Zero? {
        CoreEvolves(saml.p, f, a);
        EvolvesTransitive(p.w, saml.p.w, ReconcileCore(saml.p, f, a).p.w);
      }
    }
  }

  lemma FinalizersEvolve(w: World, finalizers: set<string>)
    requires Manageable(w) && w.stored.value.finalizers <= finalizers
    ensures Evolves(w, PutFinalizers(w, finalizers))
  {
  }

  /** Whatever fails during a pass, it keeps the start conditions and raises no part of the measure. */
  lemma PassEvolves(w: World, f: Faults, a: Answers)
    requires Manageable(w) && Sane(a)
    ensures Evolves(w, Run(w, f, a).w)
  {
    Same(w);
    if At(f, GetObject).Fine? {
      var p := Pass(w, w.stored.value, []);
      var gate := GateError(w.env, p.sp.declared.spec, f);
      if gate.Some? {
        SetPhaseEvolves(p, Pending, gate.value, InstanceStatus, f);
      } else if SP_FINALIZER !in p.sp.finalizers {
        FinalizersEvolve(w, p.sp.finalizers + {SP_FINALIZER});
      } else {
        ReconcileApplicationEvolves(p, f, a);
      }
    }
  }

  lemma RemoteRankNeverRises(w: World, f: Faults, a: Answers)
    requires Manageable(w) && Sane(a)
    ensures Manageable(Run(w, f, a).w)
    ensures RemoteRank(Run(w, f, a).w) <= RemoteRank(w)
  {
    PassEvolves(w, f, a);
  }
}
