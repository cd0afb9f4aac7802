/** One reconcile pass as a function of the world, the faults and the server's choices.
    The reconciler's methods are proved to compute exactly these functions. */
module Reconcile {
  import opened Wrappers
  import opened Application
  import opened Server
  import opened World
  import Builder
  import Helpers
  import Mapper
  import SamlMetadata

  // ---------------------------------------------------------------- status

  /** Records phase and message; a failed write is swallowed and reads as the zero result. */
  function SetPhase(p: Pass, phase: Phase, msg: string, site: Site, f: Faults): Step {
    if p.sp.status.phase == phase && p.sp.status.message == msg then Step(p, Requeue)
    else
      var st := p.sp.status.(phase := phase, message := msg);
      var fault := At(f, site);
      Step(Pass(if fault.Applied() then PutStatus(p.w, st) else p.w,
                p.sp.(status := st), p.log + [StatusSent(site, fault.Fine?)]),
           if fault.Fine? then Requeue else Zero)
  }

  // ---------------------------------------------------------------- admin access

  function AdminAccess(p: Pass, f: Faults): Step {
    var name := p.sp.declared.spec.name;
    if p.sp.status.adminCanView then Step(p, Zero)
    else if At(f, GroupGet).Fail? || !GroupKnown(p.w.dir, name) then
      SetPhase(p, Failed, "admin group lookup failed: " + ErrorText(At(f, GroupGet)), AdminStatus, f)
    else
      var groupID := p.w.dir.groups[name];
      if ADMIN in MembersOf(p.w.dir, groupID) then
        Step(p.(sp := p.sp.(status := p.sp.status.(adminCanView := true))), Zero)
      else
        var fault := At(f, GroupJoin);
        var q := p.(w := if fault.Applied() then JoinAdmin(p.w, groupID) else p.w,
                    log := p.log + [GroupJoined(groupID)]);
        if fault.Fail? then SetPhase(q, Failed, "admin group update failed: " + fault.err, AdminStatus, f)
        else Step(q, Requeue)
  }

  // ---------------------------------------------------------------- Secret

  /** Reports success; blank values never reach the Secret. */
  function UpsertSecret(p: Pass, kv: map<string, string>, getSite: Site, writeSite: Site, f: Faults): (Pass, bool) {
    if NonBlank(kv) == map[] then (p, true)
    else if At(f, getSite).Fail? then (p, false)
    else
      var fault := At(f, writeSite);
      (p.(w := if fault.Applied() then p.w.(secret := Upserted(p.w.secret, kv)) else p.w), fault.Fine?)
  }

  /** A missing Secret, or one without data, leaves the configurations as they are. */
  function InboundOAuth(secret: SecretData, cfg: Option<OAuth2Config>): Option<OAuth2Config> {
    if secret.None? || secret.value == map[] then cfg
    else Some(BLANK_OAUTH.(oauthConsumerKey := Lookup(secret.value, CLIENT_ID),
                           oauthConsumerSecret := Lookup(secret.value, CLIENT_SECRET)))
  }

  function InboundSaml(secret: SecretData, cfg: Option<SAMLConfig>): Option<SAMLConfig> {
    if secret.None? || secret.value == map[] then cfg
    else Some(BLANK_SAML.(issuer := Lookup(secret.value, SAML_ISSUER),
                          attributeConsumingServiceIndex := Lookup(secret.value, SAML_INDEX)))
  }

  function PopulateInbound(secret: SecretData, spec: SPSpec, desired: Application, f: Faults): Option<Application> {
    if spec.oauth2.Some? && At(f, InboundGetOAuth).Fail? then None
    else if spec.saml.Some? && At(f, InboundGetSaml).Fail? then None
    else
      Some(desired.(
        oauth2 := if spec.oauth2.Some? then InboundOAuth(secret, desired.oauth2) else desired.oauth2,
        saml := if spec.saml.Some? then InboundSaml(secret, desired.saml) else desired.saml))
  }

  // ---------------------------------------------------------------- OAuth

  predicate OAuthActive(d: Declared) {
    d.spec.oauth2.Some? && !Skip(RECONCILE_OAUTH, d.annotations)
  }

  function DesiredOAuth(o: OAuth2Spec, existing: OAuth2Config): OAuth2Config {
    Helpers.OAuth2FromSpec(o).(
      oauthConsumerKey := existing.oauthConsumerKey, oauthConsumerSecret := existing.oauthConsumerSecret)
  }

  /** The credentials go into the Secret, then a drifted registration is written back. */
  function CorrectOAuth2(p: Pass, existing: OAuth2Config, f: Faults): Step
    requires p.sp.declared.spec.oauth2.Some?
  {
    var (q, ok) := UpsertSecret(p, OAuthKeys(existing), OAuthSecretGet, OAuthSecretWrite, f);
    if !ok then Step(q, Error)
    else
      var name, desired := p.sp.declared.spec.name, DesiredOAuth(p.sp.declared.spec.oauth2.value, existing);
      if Helpers.OAuth2HasChanged(existing, desired) then
        var fault := At(f, OAuthUpdate);
        var r := q.(w := if fault.Applied() then WithOAuth(q.w, name, Builder.BuildOAuthApplication(name, desired))
          else q.w,
                    log := q.log + [OAuthUpdated(name)]);
        if fault.Fail? then SetPhase(r, Failed, fault.err, OAuthStatus, f) else Step(r, Requeue)
      else Step(q, Zero)
  }

  function ReconcileOAuth2(p: Pass, f: Faults, a: Answers): Step
    requires p.sp.declared.spec.oauth2.Some?
  {
    var name, o := p.sp.declared.spec.name, p.sp.declared.spec.oauth2.value;
    if At(f, OAuthTransport).Fail? then Step(p, Panicked)
    else if At(f, OAuthGet).Fail? then SetPhase(p, Failed, At(f, OAuthGet).err, OAuthStatus, f)
    else if name !in p.w.oauth then
      var fault := At(f, OAuthCreate);
      var r := RegisterOAuth(Builder.BuildOAuthApplication(name, Helpers.OAuth2FromSpec(o)), a.clientID,
        a.clientSecret);
      var q := p.(w := if fault.Applied() then WithOAuth(p.w, name, r) else p.w,
                  log := p.log + [OAuthRead(None), OAuthCreated(name)]);
      if fault.Fail? then SetPhase(q, Failed, fault.err, OAuthStatus, f) else Step(q, Requeue)
    else
      var existing := Mapper.MapGetOAuthApplication(p.w.oauth[name]);
      CorrectOAuth2(p.(log := p.log + [OAuthRead(Some(existing.oauthConsumerKey))]), existing, f)
  }

  // ---------------------------------------------------------------- SAML

  predicate SamlActive(d: Declared) {
    d.spec.saml.Some? && d.spec.saml.value.metadataURL != "" && !Skip(RECONCILE_SAML, d.annotations)
  }

  predicate Usable(env: Environment, url: string) {
    url in env.metadata && env.metadata[url].entityID != "" && env.metadata[url].sp.Some?
  }

  function DesiredSaml(env: Environment, s: SAMLSpec): SAMLConfig
    requires Usable(env, s.metadataURL)
  {
    var ed := env.metadata[s.metadataURL];
    SamlMetadata.SpConfig(ed.entityID, ed.sp.value).(
      enableAttributeProfile := s.enableAttributeProfile,
      enableAttributesByDefault := s.includeAttributesByDefault)
  }

  /** Deletes the application named after the issuer, then adds the registration. */
  function UpdateSaml(p: Pass, desired: SAMLConfig, f: Faults, a: Answers): Step {
    var gone := At(f, SamlDelete);
    var q := p.(w := if gone.Applied() then DeleteApp(p.w, desired.issuer) else p.w,
                log := p.log + [AppDeleted(desired.issuer)]);
    if gone.Fail? then SetPhase(q, Failed, gone.err, SamlStatus, f)
    else
      var added := At(f, SamlCreate);
      var r := q.(w := if added.Applied() then AddSaml(q.w, desired, a) else q.w,
                  log := q.log + [SamlAdded(desired.issuer)]);
      if added.Fail? then SetPhase(r, Failed, added.err, SamlStatus, f) else Step(r, Zero)
  }

  /** Issuer and index go into the Secret, then a drifted registration is replaced. */
  function CorrectSAML(p: Pass, existing: SAMLConfig, desired: SAMLConfig, f: Faults, a: Answers): Step {
    var (q, ok) := UpsertSecret(p, SamlKeys(existing), SamlSecretGet, SamlSecretWrite, f);
    if !ok then Step(q, Error)
    else if Helpers.SamlSPHasChanged(existing, desired) then UpdateSaml(q, desired, f, a)
    else Step(q, Zero)
  }

  function ReconcileSAML(p: Pass, f: Faults, a: Answers): Step
    requires p.sp.declared.spec.saml.Some?
  {
    var s := p.sp.declared.spec.saml.value;
    if At(f, MetadataFetch).Fail? || !Usable(p.w.env, s.metadataURL) then
      SetPhase(p, Failed, "saml metadata fetch failed: " +
               (if At(f, MetadataFetch).Fail? then At(f, MetadataFetch).err else METADATA_UNUSABLE), SamlStatus, f)
    else
      var desired := DesiredSaml(p.w.env, s);
      if At(f, SamlGet).Fail? then SetPhase(p, Failed, At(f, SamlGet).err, SamlStatus, f)
      else
        var existing := ReadSaml(p.w.saml, desired.issuer);
        var p1 := p.(log := p.log + [SamlRead(existing.issuer)]);
        if existing.issuer == "" then
          var fault := At(f, SamlCreate);
          var q := p1.(w := if fault.Applied() then AddSaml(p1.w, desired, a) else p1.w,
                       log := p1.log + [SamlAdded(desired.issuer)]);
          if fault.Fail? then SetPhase(q, Failed, fault.err, SamlStatus, f) else Step(q, Requeue)
        else CorrectSAML(p1, existing, desired, f, a)
  }

  // ---------------------------------------------------------------- the application itself

  function CreateApplication(p: Pass, f: Faults, a: Answers): Step {
    var desired := Helpers.ApplicationFromSpec(p.sp.declared.spec, p.sp.status.id, p.sp.status.resourceID);
    var fault := At(f, AppCreate);
    var q := p.(w := if fault.Applied() then CreateApp(p.w, desired, a) else p.w,
                log := p.log + [AppRead(None), AppCreated(desired.name)]);
    if fault.Fail? then SetPhase(q, Failed, "create failed: " + fault.err, AppStatus, f)
    else
      var st := p.sp.status.(phase := Pending, message := CREATED_MESSAGE);
      var patch := At(f, CreatedPatch);
      Step(Pass(if patch.Applied() then PatchStatus(q.w, p.sp.status, st) else q.w,
                p.sp.(status := st), q.log + [StatusSent(CreatedPatch, patch.Fine?)]),
           if patch.Fine? then Requeue else Error)
  }

  function InSyncMessage(resourceID: string): string {
    "Application in sync (ID: " + resourceID + ")"
  }

  /** The tail of a pass: mark Ready in memory, settle the admin group, patch against `base`. */
  function Finish(p: Pass, base: Status, resourceID: string, f: Faults): Step {
    var marked := p.(sp := p.sp.(status := p.sp.status.(phase := Ready, message := InSyncMessage(resourceID))));
    var admin := AdminAccess(marked, f);
    if !admin.out.Zero? then admin
    else
      var patch := At(f, ReadyPatch);
      Step(Pass(if patch.Applied() then PatchStatus(admin.p.w, base, admin.p.sp.status) else admin.p.w,
                admin.p.sp, admin.p.log + [StatusSent(ReadyPatch, patch.Fine?)]),
           if patch.Fine? then Requeue else Error)
  }

  /** The application as desired, with its script; None when the ConfigMap cannot be read. */
  function DesiredApp(env: Environment, spec: SPSpec, id: int, resourceID: string, f: Faults): Option<Application> {
    var plain := Helpers.ApplicationFromSpec(spec, id, resourceID);
    if !WantsScript(spec) then Some(plain)
    else
      var cm := spec.authenticationScript.value;
      if At(f, ScriptGet).Fail? || cm !in env.configMaps then None
      else Some(plain.(authenticationScript := Lookup(env.configMaps[cm], "script")))
  }

  /** The update as sent: the comparison has sorted the claims, the Secret supplies the keys.
      Also tells whether the pass goes on; a swallowed failure is an exit here. */
  function SendUpdate(p: Pass, desired: Application, f: Faults): (Step, bool) {
    var sorted := desired.(claims := Helpers.SortClaims(desired.claims));
    match PopulateInbound(p.w.secret, p.sp.declared.spec, sorted, f)
    case None => (SetPhase(p, Failed, InboundErrorMessage(p.sp.declared.spec, f), AppStatus, f), false)
    case Some(filled) =>
      var fault := At(f, AppUpdate);
      var q := p.(w := if fault.Applied() then UpdateApp(p.w, filled) else p.w,
                  log := p.log + [AppUpdated(Builder.BuildUpdateApplication(filled))]);
      if fault.Fail? then (SetPhase(q, Failed, "update failed: " + fault.err, AppStatus, f), false)
      else (Step(q, Zero), true)
  }

  function InboundErrorMessage(spec: SPSpec, f: Faults): string {
    "failed to read inbound secrets: " +
    ErrorText(if spec.oauth2.Some? && At(f, InboundGetOAuth).Fail? then At(f, InboundGetOAuth)
      else At(f, InboundGetSaml))
  }

  /** From an existing application on; the final patch is taken against the status held in memory
      before anything of this stage touched it. */
  function SyncApplication(p: Pass, existing: Application, f: Faults): Step {
    var base := p.sp.status;
    var q := p.(sp := p.sp.(status := p.sp.status.(id := existing.id, resourceID := existing.resourceID)),
                log := p.log + [AppRead(Some((existing.id, existing.resourceID)))]);
    match DesiredApp(p.w.env, p.sp.declared.spec, base.id, base.resourceID, f)
    case None => SetPhase(q, Failed, "failed to get auth script configmap: " + ErrorText(At(f, ScriptGet)),
                          AppStatus, f)
    case Some(desired) =>
      if !Helpers.AppHasChanged(existing, desired) then Finish(q, base, existing.resourceID, f)
      else
        var (sent, ok) := SendUpdate(q, desired, f);
        if ok then Finish(sent.p, base, existing.resourceID, f) else sent
  }

  function ReconcileCore(p: Pass, f: Faults, a: Answers): Step {
    if At(f, AppGet).Fail? then SetPhase(p, Failed, At(f, AppGet).err, AppStatus, f)
    else if p.sp.declared.spec.name !in p.w.apps then CreateApplication(p, f, a)
    else
      match Mapper.MapGetApplication(EchoApplication(p.w.apps[p.sp.declared.spec.name]))
      case Panic => Step(p, Panicked)
      case Good(existing) => SyncApplication(p, existing, f)
  }

  function OAuthStage(p: Pass, f: Faults, a: Answers): Step {
    if OAuthActive(p.sp.declared) then ReconcileOAuth2(p, f, a) else Step(p, Zero)
  }

  function SamlStage(p: Pass, f: Faults, a: Answers): Step {
    if SamlActive(p.sp.declared) then ReconcileSAML(p, f, a) else Step(p, Zero)
  }

  /** A zero result of a sub-step means "carry on", whatever caused it. */
  function ReconcileApplication(p: Pass, f: Faults, a: Answers): Step {
    var oauth := OAuthStage(p, f, a);
    if !oauth.out.Zero? then oauth
    else
      var saml := SamlStage(oauth.p, f, a);
      if !saml.out.Zero? then saml else ReconcileCore(saml.p, f, a)
  }

  // ---------------------------------------------------------------- deletion

  /** A failed remote delete is only logged; the finalizer goes either way. */
  function HandleDelete(p: Pass, f: Faults): Step {
    var q := if p.sp.status.resourceID == "" then p
             else p.(w := if At(f, RemoteDelete).Applied() then DeleteApp(p.w, p.sp.declared.spec.name) else p.w,
                     log := p.log + [AppDeleted(p.sp.declared.spec.name)]);
    var rest := p.sp.finalizers - {SP_FINALIZER};
    var fault := At(f, FinalizerWrite);
    Step(q.(w := if fault.Applied() then PutFinalizers(q.w, rest) else q.w, sp := p.sp.(finalizers := rest)),
         if fault.Fine? then Zero else Error)
  }

  // ---------------------------------------------------------------- the whole pass

  predicate InstanceReady(env: Environment, spec: SPSpec) {
    && spec.instanceRef in env.instances
    && env.instances[spec.instanceRef].phase == Ready
    && env.instances[spec.instanceRef].credentials
  }

  /** Why no client can be built; None when one can. */
  function GateError(env: Environment, spec: SPSpec, f: Faults): Option<string> {
    if At(f, GetInstance).Fail? then Some(At(f, GetInstance).err)
    else if spec.instanceRef !in env.instances then Some("WSO2ISInstance not found: " + spec.instanceRef)
    else if env.instances[spec.instanceRef].phase != Ready then
      Some("WSO2ISInstance is not ready: " + env.instances[spec.instanceRef].message)
    else if At(f, GetCredentials).Fail? || !env.instances[spec.instanceRef].credentials then
      Some("credentials secret: " + ErrorText(At(f, GetCredentials)))
    else None
  }

  function PauseStep(p: Pass, f: Faults): Step {
    if p.sp.status.phase == Paused then Step(p, Zero)
    else
      var st := p.sp.status.(phase := Paused);
      var fault := At(f, PauseWrite);
      Step(Pass(if fault.Applied() then PutStatus(p.w, st) else p.w,
                p.sp.(status := st), p.log + [StatusSent(PauseWrite, fault.Fine?)]),
           if fault.Fine? then Zero else Error)
  }

  function AddFinalizer(p: Pass, f: Faults): Step {
    var more := p.sp.finalizers + {SP_FINALIZER};
    var fault := At(f, FinalizerWrite);
    Step(p.(w := if fault.Applied() then PutFinalizers(p.w, more) else p.w, sp := p.sp.(finalizers := more)),
         if fault.Fine? then Zero else Error)
  }

  function ReconcileObject(p: Pass, f: Faults, a: Answers): Step {
    if Skip(RECONCILE_APP, p.sp.declared.annotations) then PauseStep(p, f)
    else
      match GateError(p.w.env, p.sp.declared.spec, f)
      case Some(err) => SetPhase(p, Pending, err, InstanceStatus, f)
      case None =>
        if p.sp.declared.deleting then HandleDelete(p, f)
        else if SP_FINALIZER !in p.sp.finalizers then AddFinalizer(p, f)
        else ReconcileApplication(p, f, a)
  }

  /** What one pass leaves behind. */
  datatype Ran = Ran(w: World, log: seq<Event>, out: Outcome)

  function Run(w: World, f: Faults, a: Answers): Ran {
    if At(f, GetObject).Fail? then Ran(w, [], Error)
    else if w.stored.None? then Ran(w, [], Zero)
    else
      var s := ReconcileObject(Pass(w, w.stored.value, []), f, a);
      Ran(s.p.w, s.p.log, s.out)
  }

  /** The world after a sequence of passes, each with its own faults and server choices. */
  function Passes(w: World, moves: seq<(Faults, Answers)>): World {
    if moves == [] then w
    else Run(Passes(w, moves[..|moves| - 1]), moves[|moves| - 1].0, moves[|moves| - 1].1).w
  }
}
