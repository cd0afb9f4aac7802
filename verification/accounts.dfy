/** What one pass does, told in terms of the stored records, the requests on the wire, the literal
    annotations and messages, and the faults: an account that goes through none of the operator's own
    mappings, comparisons or merges. */
module Accounts {
  import opened Wrappers
  import opened Application
  import opened Server
  import opened World
  import opened Reconcile
  import opened Wire
  import Builder
  import Convergence
  import Helpers
  import Mapper
  import RoundTrip
  import Safety
  import SamlMetadata
  import Shapes

  // ---------------------------------------------------------------- switches and gates

  predicate SwitchedOff(d: Declared, key: string) {
    key in d.annotations && d.annotations[key] == "false"
  }

  predicate FollowsOAuth(d: Declared) {
    d.spec.oauth2.Some? && !SwitchedOff(d, "wso2.it.auth.gr/reconcile-oauth")
  }

  predicate FollowsSaml(d: Declared) {
    d.spec.saml.Some? && d.spec.saml.value.metadataURL != "" && !SwitchedOff(d, "wso2.it.auth.gr/reconcile-saml")
  }

  /** Why there is no client for the instance; None if there is one. */
  function GateText(env: Environment, spec: SPSpec, f: Faults): Option<string> {
    if At(f, GetInstance).Fail? then Some(At(f, GetInstance).err)
    else if spec.instanceRef !in env.instances then Some("WSO2ISInstance not found: " + spec.instanceRef)
    else
      var instance := env.instances[spec.instanceRef];
      if !instance.phase.Ready? then Some("WSO2ISInstance is not ready: " + instance.message)
      else if At(f, GetCredentials).Fail? then Some("credentials secret: " + At(f, GetCredentials).err)
      else if !instance.credentials then Some("credentials secret: ")
      else None
  }

  /** The pass gets as far as WSO2. */
  predicate Enters(w: World, f: Faults) {
    && At(f, GetObject).Fine? && w.stored.Some?
    && !SwitchedOff(w.stored.value.declared, "wso2.it.auth.gr/reconcile")
    && GateText(w.env, w.stored.value.declared.spec, f).None?
    && !w.stored.value.declared.deleting
    && "wso2.it.auth.gr/sp-finalizer" in w.stored.value.finalizers
  }

  lemma SwitchesAre(d: Declared)
    ensures OAuthActive(d) <==> FollowsOAuth(d)
    ensures SamlActive(d) <==> FollowsSaml(d)
    ensures Skip(RECONCILE_APP, d.annotations) <==> SwitchedOff(d, "wso2.it.auth.gr/reconcile")
  {
    assert "" != "false";
  }

  lemma EntersExactly(w: World, f: Faults)
    ensures Safety.Reaches(w, f) <==> Enters(w, f)
    ensures w.stored.Some? ==>
        GateError(w.env, w.stored.value.declared.spec, f) == GateText(w.env, w.stored.value.declared.spec, f)
  {
    assert "credentials secret: " + "" == "credentials secret: ";
    if w.stored.Some? {
      SwitchesAre(w.stored.value.declared);
    }
  }

  // ---------------------------------------------------------------- failures reported

  /** The outcome of reporting a failure: nothing to write, written, or lost. */
  function Report(st: Status, msg: string, site: Site, f: Faults): Outcome {
    if (st.phase.Failed? && st.message == msg) || At(f, site).Fine? then Requeue else Zero
  }

  function Noted(st: Status, failure: Option<string>): Status {
    if failure.None? then st else Status(st.id, st.resourceID, Failed, st.adminCanView, failure.value)
  }

  // ---------------------------------------------------------------- the OAuth stage

  predicate IsOAuth(e: Event) {
    e.OAuthRead? || e.OAuthCreated? || e.OAuthUpdated?
  }

  /** The OAuth events of a journal are exactly these. */
  ghost predicate TellsOAuth(log: seq<Event>, events: set<Event>) {
    forall e: Event | IsOAuth(e) :: e in log <==> e in events
  }

  /** The registration is followed and asked for without a fault. */
  predicate OAuthAsked(d: Declared, f: Faults) {
    FollowsOAuth(d) && At(f, OAuthTransport).Fine? && At(f, OAuthGet).Fine?
  }

  /** A registration's credentials are taken over into the Secret without an error. */
  predicate OAuthTaken(r: OAuthRecord, f: Faults) {
    || (r.oauthConsumerKey == "" && r.oauthConsumerSecret == "")
    || (At(f, OAuthSecretGet).Fine? && At(f, OAuthSecretWrite).Fine?)
  }

  /** One registration has been written as the spec says, or nothing has changed. */
  predicate OAuthWritten(
    before: map<string, OAuthRecord>, after: map<string, OAuthRecord>, name: string, o: OAuth2Spec,
    key: string, secret: string, done: bool)
  {
    if done then name in after && after == before[name := after[name]] && Registers(after[name], name, o, key, secret)
    else after == before
  }

  /** What the stage sends and stores. */
  ghost predicate OAuthAccount(
    oauth: map<string, OAuthRecord>, d: Declared, f: Faults, a: Answers, after: map<string, OAuthRecord>,
    log: seq<Event>)
  {
    var name := d.spec.name;
    if !OAuthAsked(d, f) then after == oauth && TellsOAuth(log, {})
    else if name !in oauth then
      && TellsOAuth(log, {OAuthRead(None), OAuthCreated(name)})
      && OAuthWritten(oauth, after, name, d.spec.oauth2.value, a.clientID, a.clientSecret, At(f, OAuthCreate).Applied())
    else
      var r := oauth[name];
      if Agrees(r, d.spec.oauth2.value) || !OAuthTaken(r, f) then
        after == oauth && TellsOAuth(log, {OAuthRead(Some(r.oauthConsumerKey))})
      else
        && TellsOAuth(log, {OAuthRead(Some(r.oauthConsumerKey)), OAuthUpdated(name)})
        && OAuthWritten(oauth, after, name, d.spec.oauth2.value, r.oauthConsumerKey, r.oauthConsumerSecret,
                        At(f, OAuthUpdate).Applied())
  }

  /** The failure the stage reports, if any. */
  function OAuthFailure(oauth: map<string, OAuthRecord>, d: Declared, f: Faults): Option<string> {
    var name := d.spec.name;
    if !FollowsOAuth(d) || At(f, OAuthTransport).Fail? then None
    else if At(f, OAuthGet).Fail? then Some(At(f, OAuthGet).err)
    else if name !in oauth then if At(f, OAuthCreate).Fail? then Some(At(f, OAuthCreate).err) else None
    else if Agrees(oauth[name], d.spec.oauth2.value) || !OAuthTaken(oauth[name], f) then None
    else if At(f, OAuthUpdate).Fail? then Some(At(f, OAuthUpdate).err)
    else None
  }

  /** How the stage ends; only the zero result lets the pass go on. */
  function OAuthOutcome(oauth: map<string, OAuthRecord>, d: Declared, st: Status, f: Faults): Outcome {
    var name, failure := d.spec.name, OAuthFailure(oauth, d, f);
    if !FollowsOAuth(d) then Zero
    else if At(f, OAuthTransport).Fail? then Panicked
    else if failure.Some? then Report(st, failure.value, OAuthStatus, f)
    else if name !in oauth then Requeue
    else if !OAuthTaken(oauth[name], f) then Error
    else if Agrees(oauth[name], d.spec.oauth2.value) then Zero
    else Requeue
  }

  lemma TakenMeans(p: Pass, r: OAuthRecord, f: Faults)
    ensures UpsertSecret(p, OAuthKeys(Mapper.MapGetOAuthApplication(r)), OAuthSecretGet, OAuthSecretWrite, f).1
       <==> OAuthTaken(r, f)
  {
    KeysDiffer();
    var kv := OAuthKeys(Mapper.MapGetOAuthApplication(r));
    assert CLIENT_ID in NonBlank(kv) <==> r.oauthConsumerKey != "";
    assert CLIENT_SECRET in NonBlank(kv) <==> r.oauthConsumerSecret != "";
    if r.oauthConsumerKey == "" && r.oauthConsumerSecret == "" {
      assert NonBlank(kv) == map[];
    }
  }

  lemma SetPhaseIs(p: Pass, msg: string, site: Site, f: Faults)
    ensures var s := SetPhase(p, Failed, msg, site, f);
            && s.out == Report(p.sp.status, msg, site, f)
            && s.p.sp == p.sp.(status := Noted(p.sp.status, Some(msg)))
            && s.p.w == p.w.(stored := s.p.w.stored)
            && (s.p.log == p.log || s.p.log == p.log + [StatusSent(site, At(f, site).Fine?)])
  {
  }

  lemma CreatedRegisters(w: World, d: Declared, a: Answers)
    requires FollowsOAuth(d)
    ensures var r := RegisterOAuth(Builder.BuildOAuthApplication(d.spec.name,
        Helpers.OAuth2FromSpec(d.spec.oauth2.value)),
                                   a.clientID, a.clientSecret);
            OAuthWritten(w.oauth, WithOAuth(w, d.spec.name, r).oauth, d.spec.name, d.spec.oauth2.value,
                         a.clientID, a.clientSecret, true)
  {
    BuiltRegisters(d.spec.name, d.spec.oauth2.value, "", "");
  }

  lemma OAuthCreates(p: Pass, f: Faults, a: Answers)
    requires p.log == [] && OAuthAsked(p.sp.declared, f) && p.sp.declared.spec.name !in p.w.oauth
    ensures var s, d := OAuthStage(p, f, a), p.sp.declared;
            && OAuthAccount(p.w.oauth, d, f, a, s.p.w.oauth, s.p.log)
            && s.out == OAuthOutcome(p.w.oauth, d, p.sp.status, f)
            && s.p.sp == p.sp.(status := Noted(p.sp.status, OAuthFailure(p.w.oauth, d, f)))
  {
    var d := p.sp.declared;
    SwitchesAre(d);
    CreatedRegisters(p.w, d, a);
    var fault := At(f, OAuthCreate);
    var r := RegisterOAuth(Builder.BuildOAuthApplication(d.spec.name, Helpers.OAuth2FromSpec(d.spec.oauth2.value)),
                           a.clientID, a.clientSecret);
    var q := p.(w := if fault.Applied() then WithOAuth(p.w, d.spec.name, r) else p.w,
                log := p.log + [OAuthRead(None), OAuthCreated(d.spec.name)]);
    if fault.Fail? {
      SetPhaseIs(q, fault.err, OAuthStatus, f);
    }
  }

  lemma OAuthCorrects(p: Pass, f: Faults, a: Answers)
    requires p.log == [] && OAuthAsked(p.sp.declared, f) && p.sp.declared.spec.name in p.w.oauth
    ensures var s, d := OAuthStage(p, f, a), p.sp.declared;
            && OAuthAccount(p.w.oauth, d, f, a, s.p.w.oauth, s.p.log)
            && s.out == OAuthOutcome(p.w.oauth, d, p.sp.status, f)
            && s.p.sp == p.sp.(status := Noted(p.sp.status, OAuthFailure(p.w.oauth, d, f)))
  {
    var d, r := p.sp.declared, p.w.oauth[p.sp.declared.spec.name];
    SwitchesAre(d);
    var existing := Mapper.MapGetOAuthApplication(r);
    var p1 := p.(log := p.log + [OAuthRead(Some(existing.oauthConsumerKey))]);
    UnchangedMeansAgrees(r, d.spec.oauth2.value);
    BuiltRegisters(d.spec.name, d.spec.oauth2.value, r.oauthConsumerKey, r.oauthConsumerSecret);
    TakenMeans(p1, r, f);
    Shapes.SecretShape(p1, OAuthKeys(existing), OAuthSecretGet, OAuthSecretWrite, f);
    var (q, ok) := UpsertSecret(p1, OAuthKeys(existing), OAuthSecretGet, OAuthSecretWrite, f);
    if ok && !Agrees(r, d.spec.oauth2.value) {
      var desired, fault := DesiredOAuth(d.spec.oauth2.value, existing), At(f, OAuthUpdate);
      var built := Builder.BuildOAuthApplication(d.spec.name, desired);
      var sent := q.(w := if fault.Applied() then WithOAuth(q.w, d.spec.name, built) else q.w,
                     log := q.log + [OAuthUpdated(d.spec.name)]);
      if fault.Fail? {
        SetPhaseIs(sent, fault.err, OAuthStatus, f);
      }
    }
  }

  lemma OAuthStageAccount(p: Pass, f: Faults, a: Answers)
    requires p.log == []
    ensures var s, d := OAuthStage(p, f, a), p.sp.declared;
            && OAuthAccount(p.w.oauth, d, f, a, s.p.w.oauth, s.p.log)
            && s.out == OAuthOutcome(p.w.oauth, d, p.sp.status, f)
            && s.p.sp == p.sp.(status := Noted(p.sp.status, OAuthFailure(p.w.oauth, d, f)))
  {
    SwitchesAre(p.sp.declared);
    if !OAuthAsked(p.sp.declared, f) {
      if FollowsOAuth(p.sp.declared) && At(f, OAuthTransport).Fine? {
        SetPhaseIs(p, At(f, OAuthGet).err, OAuthStatus, f);
      }
    } else if p.sp.declared.spec.name !in p.w.oauth {
      OAuthCreates(p, f, a);
    } else {
      OAuthCorrects(p, f, a);
    }
  }

  // ---------------------------------------------------------------- the SAML stage

  predicate IsSaml(e: Event) {
    e.SamlRead? || e.SamlAdded? || e.AppDeleted?
  }

  /** The SAML events and deletions of a journal are exactly these. */
  ghost predicate TellsSaml(log: seq<Event>, events: set<Event>) {
    forall e: Event | IsSaml(e) :: e in log <==> e in events
  }

  /** What a registration is compared with: the metadata's descriptor and the spec's two flags. */
  datatype SamlTarget = SamlTarget(entityID: string, sp: SamlMetadata.SPDescriptor, spec: SAMLSpec)

  /** None when SAML is not followed, or its metadata cannot be had. */
  function TargetOf(env: Environment, d: Declared, f: Faults): Option<SamlTarget> {
    if FollowsSaml(d) && At(f, MetadataFetch).Fine? && d.spec.saml.value.metadataURL in env.metadata then
      var ed := env.metadata[d.spec.saml.value.metadataURL];
      if ed.entityID != "" && ed.sp.Some? then Some(SamlTarget(ed.entityID, ed.sp.value, d.spec.saml.value)) else None
    else None
  }

  predicate SamlRegistered(saml: map<string, SAMLConfig>, entityID: string) {
    entityID in saml && saml[entityID].issuer != ""
  }

  /** Issuer and index are taken over into the Secret without an error. */
  predicate SamlTaken(f: Faults) {
    At(f, SamlSecretGet).Fine? && At(f, SamlSecretWrite).Fine?
  }

  /** A correction gets under way: it starts with deleting the application named after the issuer. */
  predicate SamlCorrects(saml: map<string, SAMLConfig>, t: SamlTarget, f: Faults) {
    SamlRegistered(saml, t.entityID) && SamlTaken(f) && !SamlAgrees(saml[t.entityID], t.entityID, t.sp, t.spec)
  }

  /** What the stage reads and sends. */
  function SamlEvents(saml: map<string, SAMLConfig>, t: SamlTarget, f: Faults): set<Event> {
    if At(f, SamlGet).Fail? then {}
    else if !SamlRegistered(saml, t.entityID) then {SamlRead(""), SamlAdded(t.entityID)}
    else
      var read := SamlRead(saml[t.entityID].issuer);
      if !SamlCorrects(saml, t, f) then {read}
      else if At(f, SamlDelete).Fail? then {read, AppDeleted(t.entityID)}
      else {read, AppDeleted(t.entityID), SamlAdded(t.entityID)}
  }

  /** An addition takes effect. */
  predicate SamlAdds(saml: map<string, SAMLConfig>, t: SamlTarget, f: Faults, a: Answers) {
    && At(f, SamlGet).Fine? && At(f, SamlCreate).Applied()
    && (SamlRegistered(saml, t.entityID) ==> SamlCorrects(saml, t, f) && At(f, SamlDelete).Fine? && a.samlAddOverwrites)
  }

  /** What the stage stores: one registration made from the metadata and the spec, or nothing. */
  ghost predicate SamlStores(
    saml: map<string, SAMLConfig>, t: SamlTarget, f: Faults, a: Answers, after: map<string, SAMLConfig>)
  {
    if SamlAdds(saml, t, f, a) then
      && t.entityID in after && after == saml[t.entityID := after[t.entityID]]
      && SamlRegisters(after[t.entityID], t.entityID, t.sp, t.spec, a.samlIndex)
    else after == saml
  }

  /** The name of the application the stage deletes, if any. */
  predicate SamlDeletes(saml: map<string, SAMLConfig>, t: SamlTarget, f: Faults) {
    At(f, SamlGet).Fine? && SamlCorrects(saml, t, f) && At(f, SamlDelete).Applied()
  }

  function SamlFailure(saml: map<string, SAMLConfig>, t: SamlTarget, f: Faults): Option<string> {
    if At(f, SamlGet).Fail? then Some(At(f, SamlGet).err)
    else if SamlRegistered(saml, t.entityID) && !SamlCorrects(saml, t, f) then None
    else if SamlRegistered(saml, t.entityID) && At(f, SamlDelete).Fail? then Some(At(f, SamlDelete).err)
    else if At(f, SamlCreate).Fail? then Some(At(f, SamlCreate).err)
    else None
  }

  /** How the stage ends short of a failure. */
  function SamlOutcome(saml: map<string, SAMLConfig>, t: SamlTarget, f: Faults): Outcome {
    if !SamlRegistered(saml, t.entityID) then Requeue else if SamlTaken(f) then Zero else Error
  }

  /** The operator's own view of the same. */
  function Wanted(t: SamlTarget): SAMLConfig {
    SamlMetadata.SpConfig(t.entityID, t.sp).(
      enableAttributeProfile := t.spec.enableAttributeProfile,
      enableAttributesByDefault := t.spec.includeAttributesByDefault)
  }

  lemma TargetIs(env: Environment, d: Declared, f: Faults)
    requires TargetOf(env, d, f).Some?
    ensures var t := TargetOf(env, d, f).value;
            && SamlActive(d) && At(f, MetadataFetch).Fine? && Usable(env, d.spec.saml.value.metadataURL)
            && DesiredSaml(env, d.spec.saml.value) == Wanted(t)
            && Wanted(t).issuer == t.entityID != "" && t.spec == d.spec.saml.value
            && env.metadata[d.spec.saml.value.metadataURL].entityID == t.entityID
            && env.metadata[d.spec.saml.value.metadataURL].sp == Some(t.sp)
  {
    SwitchesAre(d);
  }

  function SamlResult(saml: map<string, SAMLConfig>, t: SamlTarget, f: Faults, a: Answers): map<string, SAMLConfig> {
    if SamlAdds(saml, t, f, a) then saml[t.entityID := Wanted(t).(attributeConsumingServiceIndex := a.samlIndex)]
    else saml
  }

  lemma ResultIsStored(env: Environment, d: Declared, saml: map<string, SAMLConfig>, f: Faults, a: Answers)
    requires TargetOf(env, d, f).Some?
    ensures SamlStores(saml, TargetOf(env, d, f).value, f, a, SamlResult(saml, TargetOf(env, d, f).value, f, a))
  {
    TargetIs(env, d, f);
    BuiltSamlRegisters(env, d.spec.saml.value, a.samlIndex);
  }

  /** What has happened up to reporting a failure. */
  ghost predicate SamlDid(p: Pass, q: Pass, t: SamlTarget, f: Faults, a: Answers) {
    && q.sp == p.sp && TellsSaml(q.log, SamlEvents(p.w.saml, t, f))
    && q.w.saml == SamlResult(p.w.saml, t, f, a)
    && q.w.apps == if SamlDeletes(p.w.saml, t, f) then p.w.apps - {t.entityID} else p.w.apps
  }

  /** The stage carries on from what was done, or reports. */
  predicate SamlEnds(q: Pass, s: Step, failure: Option<string>, out: Outcome, f: Faults) {
    s == if failure.Some? then SetPhase(q, Failed, failure.value, SamlStatus, f) else Step(q, out)
  }

  lemma SamlCreates(p: Pass, t: SamlTarget, f: Faults, a: Answers) returns (q: Pass)
    requires (forall e | e in p.log :: !IsSaml(e)) && TargetOf(p.w.env, p.sp.declared, f) == Some(t)
    requires At(f, SamlGet).Fine? && !SamlRegistered(p.w.saml, t.entityID)
    ensures SamlDid(p, q, t, f, a)
    ensures SamlEnds(q, ReconcileSAML(p, f, a), SamlFailure(p.w.saml, t, f), SamlOutcome(p.w.saml, t, f), f)
  {
    TargetIs(p.w.env, p.sp.declared, f);
    q := p.(w := if At(f, SamlCreate).Applied() then AddSaml(p.w, Wanted(t), a) else p.w,
            log := p.log + [SamlRead("")] + [SamlAdded(t.entityID)]);
  }

  lemma SamlUpdates(p: Pass, r: Pass, t: SamlTarget, f: Faults, a: Answers) returns (q: Pass)
    requires (forall e | e in p.log :: !IsSaml(e)) && t.entityID != ""
    requires At(f, SamlGet).Fine? && SamlCorrects(p.w.saml, t, f)
    requires r.sp == p.sp && r.w == p.w.(secret := r.w.secret)
        && r.log == p.log + [SamlRead(p.w.saml[t.entityID].issuer)]
    ensures SamlDid(p, q, t, f, a)
    ensures SamlEnds(q, UpdateSaml(r, Wanted(t), f, a), SamlFailure(p.w.saml, t, f), Zero, f)
  {
    q := r.(w := if At(f, SamlDelete).Applied() then DeleteApp(r.w, t.entityID) else r.w,
            log := r.log + [AppDeleted(t.entityID)]);
    if At(f, SamlDelete).Fine? {
      q := q.(w := if At(f, SamlCreate).Applied() then AddSaml(q.w, Wanted(t), a) else q.w,
              log := q.log + [SamlAdded(t.entityID)]);
    }
  }

  lemma SamlVerdict(env: Environment, d: Declared, existing: SAMLConfig, t: SamlTarget, f: Faults)
    requires TargetOf(env, d, f) == Some(t)
    ensures Helpers.SamlSPHasChanged(existing, Wanted(t)) <==> !SamlAgrees(existing, t.entityID, t.sp, t.spec)
  {
    TargetIs(env, d, f);
    SamlUnchangedMeansAgrees(existing, env, d.spec.saml.value);
  }

  lemma SamlUpsertOk(p: Pass, existing: SAMLConfig, f: Faults)
    requires existing.issuer != ""
    ensures var (q, ok) := UpsertSecret(p, SamlKeys(existing), SamlSecretGet, SamlSecretWrite, f);
            ok == SamlTaken(f) && q.sp == p.sp && q.log == p.log && q.w == p.w.(secret := q.w.secret)
  {
    assert SAML_ISSUER in NonBlank(SamlKeys(existing)) by { KeysDiffer(); }
  }

  lemma SamlKeeps(p: Pass, t: SamlTarget, f: Faults, a: Answers) returns (q: Pass)
    requires (forall e | e in p.log :: !IsSaml(e)) && TargetOf(p.w.env, p.sp.declared, f) == Some(t)
    requires At(f, SamlGet).Fine? && SamlRegistered(p.w.saml, t.entityID)
    ensures SamlDid(p, q, t, f, a)
    ensures SamlEnds(q, ReconcileSAML(p, f, a), SamlFailure(p.w.saml, t, f), SamlOutcome(p.w.saml, t, f), f)
  {
    var existing := p.w.saml[t.entityID];
    var p1 := p.(log := p.log + [SamlRead(existing.issuer)]);
    SamlVerdict(p.w.env, p.sp.declared, existing, t, f);
    SamlUpsertOk(p1, existing, f);
    q := UpsertSecret(p1, SamlKeys(existing), SamlSecretGet, SamlSecretWrite, f).0;
    assert ReconcileSAML(p, f, a) == CorrectSAML(p1, existing, Wanted(t), f, a) by {
      TargetIs(p.w.env, p.sp.declared, f);
    }
    if SamlCorrects(p.w.saml, t, f) {
      TargetIs(p.w.env, p.sp.declared, f);
      q := SamlUpdates(p, q, t, f, a);
    }
  }

  /** The failure the stage reports, if any. */
  function SamlProblem(env: Environment, saml: map<string, SAMLConfig>, d: Declared, f: Faults): Option<string> {
    var target := TargetOf(env, d, f);
    if !FollowsSaml(d) then None
    else if At(f, MetadataFetch).Fail? then Some("saml metadata fetch failed: " + At(f, MetadataFetch).err)
    else if target.None? then Some("saml metadata fetch failed: " + METADATA_UNUSABLE)
    else SamlFailure(saml, target.value, f)
  }

  /** How the stage ends; only the zero result lets the pass go on. */
  function SamlEnd(env: Environment, saml: map<string, SAMLConfig>, d: Declared, st: Status, f: Faults): Outcome {
    var target, problem := TargetOf(env, d, f), SamlProblem(env, saml, d, f);
    if problem.Some? then Report(st, problem.value, SamlStatus, f)
    else if target.None? then Zero
    else SamlOutcome(saml, target.value, f)
  }

  /** What the stage sends, stores and deletes. */
  ghost predicate SamlAccount(
    env: Environment, saml: map<string, SAMLConfig>, d: Declared, f: Faults, a: Answers,
    after: map<string, SAMLConfig>, log: seq<Event>)
  {
    var target := TargetOf(env, d, f);
    if target.None? then after == saml && TellsSaml(log, {})
    else SamlStores(saml, target.value, f, a, after) && TellsSaml(log, SamlEvents(saml, target.value, f))
  }

  /** The applications once the stage is through. */
  function SamlLeaves(
    apps: map<string, StoredApp>, env: Environment, saml: map<string, SAMLConfig>, d: Declared, f: Faults)
    : map<string, StoredApp>
  {
    var target := TargetOf(env, d, f);
    if target.Some? && SamlDeletes(saml, target.value, f) then apps - {target.value.entityID} else apps
  }

  lemma SamlReports(q: Pass, s: Step, failure: Option<string>, out: Outcome, f: Faults)
    requires SamlEnds(q, s, failure, out, f)
    ensures s.out == if failure.Some? then Report(q.sp.status, failure.value, SamlStatus, f) else out
    ensures s.p.sp == q.sp.(status := Noted(q.sp.status, failure))
    ensures s.p.w == q.w.(stored := s.p.w.stored)
    ensures forall e: Event | IsSaml(e) :: e in s.p.log <==> e in q.log
  {
    if failure.Some? {
      SetPhaseIs(q, failure.value, SamlStatus, f);
    }
  }

  lemma SamlStageDid(p: Pass, t: SamlTarget, f: Faults, a: Answers) returns (q: Pass)
    requires (forall e | e in p.log :: !IsSaml(e)) && TargetOf(p.w.env, p.sp.declared, f) == Some(t)
    ensures SamlDid(p, q, t, f, a)
    ensures SamlEnds(q, SamlStage(p, f, a), SamlFailure(p.w.saml, t, f), SamlOutcome(p.w.saml, t, f), f)
  {
    TargetIs(p.w.env, p.sp.declared, f);
    assert SamlStage(p, f, a) == ReconcileSAML(p, f, a);
    q := p;
    if At(f, SamlGet).Fine? {
      if SamlRegistered(p.w.saml, t.entityID) {
        q := SamlKeeps(p, t, f, a);
      } else {
        q := SamlCreates(p, t, f, a);
      }
    }
  }

  lemma SamlUnfollowed(p: Pass, f: Faults, a: Answers)
    requires TargetOf(p.w.env, p.sp.declared, f).None?
    ensures SamlEnds(p, SamlStage(p, f, a), SamlProblem(p.w.env, p.w.saml, p.sp.declared, f), Zero, f)
  {
    SwitchesAre(p.sp.declared);
  }

  lemma SamlStageAccount(p: Pass, f: Faults, a: Answers)
    requires forall e | e in p.log :: !IsSaml(e)
    ensures var s, d := SamlStage(p, f, a), p.sp.declared;
            && SamlAccount(p.w.env, p.w.saml, d, f, a, s.p.w.saml, s.p.log)
            && s.p.w.apps == SamlLeaves(p.w.apps, p.w.env, p.w.saml, d, f)
            && s.out == SamlEnd(p.w.env, p.w.saml, d, p.sp.status, f)
            && s.p.sp == p.sp.(status := Noted(p.sp.status, SamlProblem(p.w.env, p.w.saml, d, f)))
  {
    var s, d, target := SamlStage(p, f, a), p.sp.declared, TargetOf(p.w.env, p.sp.declared, f);
    if target.None? {
      SamlUnfollowed(p, f, a);
      SamlReports(p, s, SamlProblem(p.w.env, p.w.saml, d, f), Zero, f);
    } else {
      var q := SamlStageDid(p, target.value, f, a);
      SamlReports(q, s, SamlFailure(p.w.saml, target.value, f), SamlOutcome(p.w.saml, target.value, f), f);
      ResultIsStored(p.w.env, d, p.w.saml, f, a);
    }
  }

  // ---------------------------------------------------------------- the application stage

  predicate IsApp(e: Event) {
    e.AppRead? || e.AppCreated? || e.AppUpdated?
  }

  /** The application events of a journal are exactly these. */
  ghost predicate TellsApp(log: seq<Event>, events: set<Event>) {
    forall e: Event | IsApp(e) :: e in log <==> e in events
  }

  /** The script to send, blank if the spec asks for none; None when it cannot be had. */
  function ScriptText(env: Environment, spec: SPSpec, f: Faults): Option<string> {
    if spec.authenticationScript.None? || spec.authenticationSteps.Nil? then Some("")
    else if At(f, ScriptGet).Fail? || spec.authenticationScript.value !in env.configMaps then None
    else
      var data := env.configMaps[spec.authenticationScript.value];
      Some(if "script" in data then data["script"] else "")
  }

  function Held(secret: SecretData, key: string): string {
    if secret.Some? && key in secret.value then secret.value[key] else ""
  }

  /** The Secret's values for the declared kinds, blanks for the others. */
  function CredentialsIn(secret: SecretData, spec: SPSpec): KeySet {
    KeySet(
      if spec.oauth2.Some? then Held(secret, "client_id") else "",
      if spec.oauth2.Some? then Held(secret, "client_secret") else "",
      if spec.saml.Some? then Held(secret, "saml_issuer") else "",
      if spec.saml.Some? then Held(secret, "saml_attrConsumingServiceIndex") else "")
  }

  predicate InboundReadable(spec: SPSpec, f: Faults) {
    && (spec.oauth2.Some? ==> At(f, InboundGetOAuth).Fine?)
    && (spec.saml.Some? ==> At(f, InboundGetSaml).Fine?)
  }

  /** Every identity provider on the wire comes with an authenticator to read. */
  predicate CanBeRead(steps: seq<StepRecord>) {
    forall r | r in steps :: r.federatedProviders != [] ==> r.federatedProviders[0].authenticators != []
  }

  /** An application as created: the server's defaults under the spec's name and description. */
  function CreatedFrom(spec: SPSpec, a: Answers): StoredApp {
    StoredApp(a.appID, a.appResourceID,
              a.bareApp.(name := spec.name, description := spec.name + " -- " + spec.description))
  }

  /** The application is there, can be read, and disagrees with the spec, and all an update needs is at hand. */
  ghost predicate SendsUpdate(apps: map<string, StoredApp>, env: Environment, spec: SPSpec, f: Faults) {
    && At(f, AppGet).Fine? && spec.name in apps
    && CanBeRead(apps[spec.name].content.localOutbound.steps)
    && ScriptText(env, spec, f).Some? && InboundReadable(spec, f)
    && !ContentAgrees(apps[spec.name].content, spec, ScriptText(env, spec, f).value)
  }

  /** What the stage reads, sends and stores; `request` is the update, if one goes out. */
  ghost predicate AppAccount(
    apps: map<string, StoredApp>, env: Environment, secret: SecretData, spec: SPSpec, id: int, f: Faults, a: Answers,
    after: map<string, StoredApp>, log: seq<Event>, request: ServiceProviderRequest)
  {
    var name := spec.name;
    if At(f, AppGet).Fail? then after == apps && TellsApp(log, {})
    else if name !in apps then
      && TellsApp(log, {AppRead(None), AppCreated(name)})
      && after == if At(f, AppCreate).Applied() then apps[name := CreatedFrom(spec, a)] else apps
    else if !CanBeRead(apps[name].content.localOutbound.steps) then after == apps && TellsApp(log, {})
    else
      var stored := apps[name];
      var read := AppRead(Some((stored.id, stored.resourceID)));
      if !SendsUpdate(apps, env, spec, f) then after == apps && TellsApp(log, {read})
      else
        && RequestStates(request, spec, ScriptText(env, spec, f).value, id, CredentialsIn(secret, spec))
        && TellsApp(log, {read, AppUpdated(request)})
        && after == if At(f, AppUpdate).Applied() then apps[name := StoredApp(stored.id, stored.resourceID, request)]
                    else apps
  }

  function InboundText(spec: SPSpec, f: Faults): string {
    "failed to read inbound secrets: " +
    if spec.oauth2.Some? && At(f, InboundGetOAuth).Fail? then At(f, InboundGetOAuth).err
    else ErrorText(At(f, InboundGetSaml))
  }

  /** The failure the stage reports itself, if any. */
  ghost function AppFailure(apps: map<string, StoredApp>, env: Environment, spec: SPSpec, f: Faults): Option<string> {
    if At(f, AppGet).Fail? then Some(At(f, AppGet).err)
    else if spec.name !in apps then
      if At(f, AppCreate).Fail? then Some("create failed: " + At(f, AppCreate).err) else None
    else if !CanBeRead(apps[spec.name].content.localOutbound.steps) then None
    else if ScriptText(env, spec, f).None? then
      Some("failed to get auth script configmap: " + ErrorText(At(f, ScriptGet)))
    else if ContentAgrees(apps[spec.name].content, spec, ScriptText(env, spec, f).value) then None
    else if !InboundReadable(spec, f) then Some(InboundText(spec, f))
    else if At(f, AppUpdate).Fail? then Some("update failed: " + At(f, AppUpdate).err)
    else None
  }

  lemma CredentialsAre(secret: SecretData, spec: SPSpec)
    ensures var oauth2, saml := Convergence.SentOAuth(secret, spec), Convergence.SentSaml(secret, spec);
            CredentialsIn(secret, spec) == KeySet(oauth2.oauthConsumerKey, oauth2.oauthConsumerSecret,
                                                       saml.issuer, saml.attributeConsumingServiceIndex)
  {
  }

  lemma OutgoingStates(secret: SecretData, env: Environment, spec: SPSpec, id: int, resourceID: string, f: Faults)
    requires ScriptText(env, spec, f).Some?
    ensures RequestStates(Builder.BuildUpdateApplication(Convergence.OutgoingApp(secret, env, spec, id, resourceID)),
                          spec, ScriptText(env, spec, f).value, id, CredentialsIn(secret, spec))
  {
    CredentialsAre(secret, spec);
    BuiltRequestStates(spec, id, resourceID, Convergence.Script(env, spec),
                       Convergence.SentOAuth(secret, spec), Convergence.SentSaml(secret, spec));
  }

  /** The status with the identifiers of the application as read. */
  function Found(apps: map<string, StoredApp>, spec: SPSpec, st: Status, f: Faults): Status {
    if At(f, AppGet).Fine? && spec.name in apps && CanBeRead(apps[spec.name].content.localOutbound.steps)
    then Status(apps[spec.name].id, apps[spec.name].resourceID, st.phase, st.adminCanView, st.message)
    else st
  }

  /** What has happened before the stage reports a failure, notes a creation, or sees to admin access. */
  ghost predicate AppDid(p: Pass, q: Pass, f: Faults, a: Answers, request: ServiceProviderRequest) {
    AppAccount(p.w.apps, p.w.env, p.w.secret, p.sp.declared.spec, p.sp.status.id, f, a, q.w.apps, q.log, request)
  }

  /** The rest of the pass by then. */
  ghost predicate AppFrame(p: Pass, q: Pass, f: Faults, a: Answers) {
    var spec := p.sp.declared.spec;
    && q.w == p.w.(apps := q.w.apps, dir := q.w.dir)
    && q.w.dir == (if At(f, AppGet).Fine? && spec.name !in p.w.apps && At(f, AppCreate).Applied()
                   then WithGroup(p.w.dir, spec.name, a) else p.w.dir)
    && q.sp == p.sp.(status := Found(p.w.apps, spec, p.sp.status, f))
    && (forall e: Event | !IsApp(e) :: e in q.log <==> e in p.log)
  }

  /** The step after an application has been created. */
  function Noting(q: Pass, f: Faults): Step {
    var st, patch := q.sp.status.(phase := Pending, message := CREATED_MESSAGE), At(f, CreatedPatch);
    Step(Pass(if patch.Applied() then PatchStatus(q.w, q.sp.status, st) else q.w, q.sp.(status := st),
              q.log + [StatusSent(CreatedPatch, patch.Fine?)]),
         if patch.Fine? then Requeue else Error)
  }

  ghost predicate AppEnds(p: Pass, q: Pass, s: Step, f: Faults) {
    var spec, failure := p.sp.declared.spec, AppFailure(p.w.apps, p.w.env, p.sp.declared.spec, f);
    if failure.Some? then s == SetPhase(q, Failed, failure.value, AppStatus, f)
    else if spec.name !in p.w.apps then s == Noting(q, f)
    else if !CanBeRead(p.w.apps[spec.name].content.localOutbound.steps) then s == Step(q, Panicked)
    else s == Finish(q, p.sp.status, p.w.apps[spec.name].resourceID, f)
  }

  lemma AppCreates(p: Pass, f: Faults, a: Answers) returns (q: Pass, request: ServiceProviderRequest)
    requires (forall e | e in p.log :: !IsApp(e)) && At(f, AppGet).Fine? && p.sp.declared.spec.name !in p.w.apps
    ensures AppDid(p, q, f, a, request) && AppFrame(p, q, f, a) && AppEnds(p, q, ReconcileCore(p, f, a), f)
  {
    var spec := p.sp.declared.spec;
    var desired := Helpers.ApplicationFromSpec(spec, p.sp.status.id, p.sp.status.resourceID);
    request := a.bareApp;
    q := p.(w := if At(f, AppCreate).Applied() then CreateApp(p.w, desired, a) else p.w,
            log := p.log + [AppRead(None), AppCreated(spec.name)]);
  }

  lemma ReadableIs(s: StoredApp)
    ensures Mapper.MapGetApplication(EchoApplication(s)).Good? <==> CanBeRead(s.content.localOutbound.steps)
    ensures Mapper.MapGetApplication(EchoApplication(s)).Good? ==>
              && Mapper.MapGetApplication(EchoApplication(s)).value.id == s.id
              && Mapper.MapGetApplication(EchoApplication(s)).value.resourceID == s.resourceID
  {
  }

  lemma ScriptIs(env: Environment, spec: SPSpec, id: int, resourceID: string, f: Faults)
    ensures DesiredApp(env, spec, id, resourceID, f).Some? <==> ScriptText(env, spec, f).Some?
    ensures ScriptText(env, spec, f).Some? ==> Convergence.Script(env, spec) == ScriptText(env, spec, f).value
  {
  }

  lemma DesiredIs(env: Environment, spec: SPSpec, id: int, resourceID: string, f: Faults)
    requires ScriptText(env, spec, f).Some?
    ensures DesiredApp(env, spec, id, resourceID, f) ==
            Some(RoundTrip.Desired(spec, id, resourceID, ScriptText(env, spec, f).value))
  {
    ScriptIs(env, spec, id, resourceID, f);
    Convergence.DesiredAppIsDesired(env, spec, id, resourceID, f);
  }

  /** The update as stored. */
  lemma OutgoingIsStored(w: World, request: ServiceProviderRequest, app: Application)
    requires app.name in w.apps && request == Builder.BuildUpdateApplication(app)
    ensures var s := w.apps[app.name];
            UpdateApp(w, app) == w.(apps := w.apps[app.name := StoredApp(s.id, s.resourceID, request)])
  {
  }

  /** The pass with this update sent. */
  function Sent(q: Pass, outgoing: Application, f: Faults): Pass {
    q.(w := if At(f, AppUpdate).Applied() then UpdateApp(q.w, outgoing) else q.w,
       log := q.log + [AppUpdated(Builder.BuildUpdateApplication(outgoing))])
  }

  lemma AppSends(q: Pass, id: int, resourceID: string, f: Faults)
    requires InboundReadable(q.sp.declared.spec, f)
    ensures var spec := q.sp.declared.spec;
            var r := Sent(q, Convergence.OutgoingApp(q.w.secret, q.w.env, spec, id, resourceID), f);
            SendUpdate(q, RoundTrip.Desired(spec, id, resourceID, Convergence.Script(q.w.env, spec)), f) ==
            if At(f, AppUpdate).Fine? then (Step(r, Zero), true)
            else (SetPhase(r, Failed, "update failed: " + At(f, AppUpdate).err, AppStatus, f), false)
  {
    Convergence.PopulatedIsOutgoing(q.w.secret, q.w.env, q.sp.declared.spec, id, resourceID, f);
  }

  lemma AppCannotSend(q: Pass, desired: Application, f: Faults)
    requires !InboundReadable(q.sp.declared.spec, f)
    ensures SendUpdate(q, desired, f) ==
            (SetPhase(q, Failed, InboundText(q.sp.declared.spec, f), AppStatus, f), false)
  {
  }

  /** The pass with the application read. */
  function HavingRead(p: Pass, stored: StoredApp): Pass {
    p.(sp := p.sp.(status := p.sp.status.(id := stored.id, resourceID := stored.resourceID)),
       log := p.log + [AppRead(Some((stored.id, stored.resourceID)))])
  }

  function Outgoing(p: Pass): Application {
    Convergence.OutgoingApp(p.w.secret, p.w.env, p.sp.declared.spec, p.sp.status.id, p.sp.status.resourceID)
  }

  /** A present, readable application. */
  predicate AppIsRead(p: Pass, f: Faults) {
    && At(f, AppGet).Fine? && p.sp.declared.spec.name in p.w.apps
    && CanBeRead(p.w.apps[p.sp.declared.spec.name].content.localOutbound.steps)
  }

  lemma ReadIsTold(p: Pass, f: Faults, a: Answers, request: ServiceProviderRequest)
    requires (forall e | e in p.log :: !IsApp(e)) && AppIsRead(p, f)
        && !SendsUpdate(p.w.apps, p.w.env, p.sp.declared.spec, f)
    ensures var q := HavingRead(p, p.w.apps[p.sp.declared.spec.name]);
            AppDid(p, q, f, a, request) && AppFrame(p, q, f, a)
  {
  }

  lemma SentIsTold(p: Pass, f: Faults, a: Answers)
    requires (forall e | e in p.log :: !IsApp(e)) && AppIsRead(p, f)
        && SendsUpdate(p.w.apps, p.w.env, p.sp.declared.spec, f)
    ensures var q := Sent(HavingRead(p, p.w.apps[p.sp.declared.spec.name]), Outgoing(p), f);
            AppDid(p, q, f, a, Builder.BuildUpdateApplication(Outgoing(p))) && AppFrame(p, q, f, a)
  {
    var spec := p.sp.declared.spec;
    var request := Builder.BuildUpdateApplication(Outgoing(p));
    OutgoingStates(p.w.secret, p.w.env, spec, p.sp.status.id, p.sp.status.resourceID, f);
    OutgoingIsStored(p.w, request, Outgoing(p));
  }

  /** What the synchronisation comes to. */
  lemma SyncComesTo(p: Pass, existing: Application, f: Faults)
    requires AppIsRead(p, f)
    requires Mapper.MapGetApplication(EchoApplication(p.w.apps[p.sp.declared.spec.name])) == Mapper.Good(existing)
    ensures var s, spec := SyncApplication(p, existing, f), p.sp.declared.spec;
            var stored := p.w.apps[spec.name];
            var q := HavingRead(p, stored);
            if SendsUpdate(p.w.apps, p.w.env, spec, f) && At(f, AppUpdate).Fine? then
              s == Finish(Sent(q, Outgoing(p), f), p.sp.status, stored.resourceID, f)
            else if SendsUpdate(p.w.apps, p.w.env, spec, f) then
              s == SetPhase(Sent(q, Outgoing(p), f), Failed, "update failed: " + At(f, AppUpdate).err, AppStatus, f)
            else if AppFailure(p.w.apps, p.w.env, spec, f).Some? then
              s == SetPhase(q, Failed, AppFailure(p.w.apps, p.w.env, spec, f).value, AppStatus, f)
            else s == Finish(q, p.sp.status, stored.resourceID, f)
  {
    var spec, stored := p.sp.declared.spec, p.w.apps[p.sp.declared.spec.name];
    var id, rid, q := p.sp.status.id, p.sp.status.resourceID, HavingRead(p, stored);
    ReadableIs(stored);
    ScriptIs(p.w.env, spec, id, rid, f);
    if ScriptText(p.w.env, spec, f).Some? {
      DesiredIs(p.w.env, spec, id, rid, f);
      UnchangedMeansContentAgrees(stored, spec, id, rid, ScriptText(p.w.env, spec, f).value);
      if InboundReadable(spec, f) {
        AppSends(q, id, rid, f);
      } else {
        AppCannotSend(q, RoundTrip.Desired(spec, id, rid, ScriptText(p.w.env, spec, f).value), f);
      }
    }
  }

  lemma AppStageAccount(p: Pass, f: Faults, a: Answers) returns (q: Pass, request: ServiceProviderRequest)
    requires forall e | e in p.log :: !IsApp(e)
    ensures AppDid(p, q, f, a, request) && AppFrame(p, q, f, a)
    ensures AppEnds(p, q, ReconcileCore(p, f, a), f)
  {
    var spec := p.sp.declared.spec;
    q, request := p, a.bareApp;
    if At(f, AppGet).Fine? && spec.name !in p.w.apps {
      q, request := AppCreates(p, f, a);
    } else if At(f, AppGet).Fine? {
      var stored := p.w.apps[spec.name];
      ReadableIs(stored);
      if CanBeRead(stored.content.localOutbound.steps) {
        SyncComesTo(p, Mapper.MapGetApplication(EchoApplication(stored)).value, f);
        if SendsUpdate(p.w.apps, p.w.env, spec, f) {
          SentIsTold(p, f, a);
          q, request := Sent(HavingRead(p, stored), Outgoing(p), f), Builder.BuildUpdateApplication(Outgoing(p));
        } else {
          ReadIsTold(p, f, a, request);
          q := HavingRead(p, stored);
        }
      }
    }
  }

  /** The same without what is read and sent. */
  lemma AppStageEnds(p: Pass, f: Faults, a: Answers) returns (q: Pass)
    requires forall e | e in p.log :: !IsApp(e)
    ensures AppFrame(p, q, f, a) && AppEnds(p, q, ReconcileCore(p, f, a), f)
  {
    var request;
    q, request := AppStageAccount(p, f, a);
  }

  // ---------------------------------------------------------------- admin access and the end of a pass

  predicate GroupThere(dir: Directory, name: string) {
    name in dir.groups && dir.groups[name] in dir.members
  }

  predicate AdminThere(dir: Directory, name: string) {
    GroupThere(dir, name) && "admin" in dir.members[dir.groups[name]]
  }

  /** The administrator is sent to join: not recorded as a member, asked for, and not found. */
  predicate AdminJoins(dir: Directory, name: string, st: Status, f: Faults) {
    !st.adminCanView && At(f, GroupGet).Fine? && GroupThere(dir, name) && !AdminThere(dir, name)
  }

  function AdminFailure(dir: Directory, name: string, st: Status, f: Faults): Option<string> {
    if st.adminCanView then None
    else if At(f, GroupGet).Fail? || !GroupThere(dir, name) then
      Some("admin group lookup failed: " + ErrorText(At(f, GroupGet)))
    else if !AdminThere(dir, name) && At(f, GroupJoin).Fail? then
      Some("admin group update failed: " + At(f, GroupJoin).err)
    else None
  }

  function Joined(dir: Directory, name: string, st: Status, f: Faults): Directory {
    if AdminJoins(dir, name, st, f) && At(f, GroupJoin).Applied() then
      var group := dir.groups[name];
      Directory(dir.groups, dir.members[group := dir.members[group] + ["admin"]])
    else dir
  }

  /** A failure reported, or a join sent, keeps the pass from its final patch; a lost report does not. */
  predicate AdminStops(dir: Directory, name: string, st: Status, f: Faults) {
    if AdminFailure(dir, name, st, f).Some? then At(f, AdminStatus).Fine? else AdminJoins(dir, name, st, f)
  }

  function FinishOutcome(dir: Directory, name: string, st: Status, f: Faults): Outcome {
    if AdminStops(dir, name, st, f) || At(f, ReadyPatch).Fine? then Requeue else Error
  }

  lemma AdminAccount(p: Pass, f: Faults)
    ensures var s, name := AdminAccess(p, f), p.sp.declared.spec.name;
            var failure, joins := AdminFailure(p.w.dir, name, p.sp.status, f),
              AdminJoins(p.w.dir, name, p.sp.status, f);
            var q := p.(w := p.w.(dir := Joined(p.w.dir, name, p.sp.status, f)),
                        log := if joins then p.log + [GroupJoined(p.w.dir.groups[name])] else p.log);
            s == if failure.Some? then SetPhase(q, Failed, failure.value, AdminStatus, f)
                 else if joins then Step(q, Requeue)
                 else Step(q.(sp := p.sp.(status := p.sp.status.(adminCanView := true))), Zero)
  {
  }

  lemma PatchIs(w: World, base: Status, target: Status)
    ensures PatchStatus(w, base, target) == w.(stored := PatchStatus(w, base, target).stored)
  {
  }

  lemma AdminLeaves(p: Pass, f: Faults)
    requires p.sp.status.phase == Ready
    ensures var s, name, st := AdminAccess(p, f), p.sp.declared.spec.name, p.sp.status;
            && s.p.w == p.w.(dir := Joined(p.w.dir, name, st, f), stored := s.p.w.stored)
            && s.out == if AdminStops(p.w.dir, name, st, f) then Requeue else Zero
  {
    AdminAccount(p, f);
    var name, st := p.sp.declared.spec.name, p.sp.status;
    var failure, joins := AdminFailure(p.w.dir, name, st, f), AdminJoins(p.w.dir, name, st, f);
    if failure.Some? {
      var q := p.(w := p.w.(dir := Joined(p.w.dir, name, st, f)),
                  log := if joins then p.log + [GroupJoined(p.w.dir.groups[name])] else p.log);
      SetPhaseIs(q, failure.value, AdminStatus, f);
    }
  }

  lemma FinishAccount(p: Pass, base: Status, f: Faults)
    ensures var s, name, st := Finish(p, base, p.sp.status.resourceID, f), p.sp.declared.spec.name, p.sp.status;
            && s.p.w == p.w.(dir := Joined(p.w.dir, name, st, f), stored := s.p.w.stored)
            && s.out == FinishOutcome(p.w.dir, name, st, f)
  {
    var rid := p.sp.status.resourceID;
    var marked := p.(sp := p.sp.(status := p.sp.status.(phase := Ready, message := InSyncMessage(rid))));
    AdminLeaves(marked, f);
    var admin := AdminAccess(marked, f);
    PatchIs(admin.p.w, base, admin.p.sp.status);
  }

  lemma FinishTells(p: Pass, base: Status, f: Faults)
    ensures forall e: Event | !e.StatusSent? :: e in Finish(p, base, p.sp.status.resourceID, f).p.log <==>
              e in p.log || (AdminJoins(p.w.dir, p.sp.declared.spec.name, p.sp.status, f)
                             && e == GroupJoined(p.w.dir.groups[p.sp.declared.spec.name]))
  {
    var rid := p.sp.status.resourceID;
    AdminAccount(p.(sp := p.sp.(status := p.sp.status.(phase := Ready, message := InSyncMessage(rid)))), f);
  }

  // ---------------------------------------------------------------- from the application on

  /** The pass comes to see to admin access. */
  ghost predicate Finishes(apps: map<string, StoredApp>, env: Environment, spec: SPSpec, f: Faults) {
    && At(f, AppGet).Fine? && spec.name in apps && CanBeRead(apps[spec.name].content.localOutbound.steps)
    && AppFailure(apps, env, spec, f).None?
  }

  /** The groups after a pass: a created application brings one, unless it has one; the administrator may join it. */
  ghost function DirAfter(
    apps: map<string, StoredApp>, env: Environment, dir: Directory, spec: SPSpec, st: Status, f: Faults, a: Answers)
    : Directory
  {
    if At(f, AppGet).Fine? && spec.name !in apps && At(f, AppCreate).Applied() && !GroupThere(dir, spec.name) then
      Directory(dir.groups[spec.name := a.groupID], dir.members[a.groupID := a.groupMembers])
    else if Finishes(apps, env, spec, f) then Joined(dir, spec.name, st, f)
    else dir
  }

  ghost function AppOutcome(
    apps: map<string, StoredApp>, env: Environment, dir: Directory, spec: SPSpec, st: Status, f: Faults): Outcome
  {
    var failure := AppFailure(apps, env, spec, f);
    if failure.Some? then Report(st, failure.value, AppStatus, f)
    else if spec.name !in apps then if At(f, CreatedPatch).Fine? then Requeue else Error
    else if !CanBeRead(apps[spec.name].content.localOutbound.steps) then Panicked
    else FinishOutcome(dir, spec.name, st, f)
  }

  /** The administrator is sent to join this group, and no other, if the pass comes to that. */
  ghost predicate TellsJoin(
    log: seq<Event>, apps: map<string, StoredApp>, env: Environment, dir: Directory, spec: SPSpec, st: Status,
    f: Faults)
  {
    forall e: Event | e.GroupJoined? :: e in log <==>
      Finishes(apps, env, spec, f) && AdminJoins(dir, spec.name, st, f) && e.groupID == dir.groups[spec.name]
  }

  /** What the stage did last, failing, after a creation, and otherwise. */
  predicate CoreLast(q: Pass, s: Step, base: Status, failure: Option<string>, created: bool, read: bool, f: Faults) {
    if failure.Some? then s == SetPhase(q, Failed, failure.value, AppStatus, f)
    else if created then s == Noting(q, f)
    else if !read then s == Step(q, Panicked)
    else s == Finish(q, base, q.sp.status.resourceID, f)
  }

  lemma EndsAreLast(p: Pass, q: Pass, s: Step, f: Faults, a: Answers)
    requires AppFrame(p, q, f, a) && AppEnds(p, q, s, f)
    ensures var apps, spec := p.w.apps, p.sp.declared.spec;
            CoreLast(q, s, p.sp.status, AppFailure(apps, p.w.env, spec, f), spec.name !in apps,
                     spec.name in apps && CanBeRead(apps[spec.name].content.localOutbound.steps), f)
  {
  }

  lemma LastLeaves(q: Pass, s: Step, base: Status, failure: Option<string>, created: bool, read: bool, f: Faults)
    requires CoreLast(q, s, base, failure, created, read, f)
    ensures s.p.w == q.w.(stored := s.p.w.stored, dir := s.p.w.dir)
    ensures s.p.w.dir == if failure.None? && !created && read
                         then Joined(q.w.dir, q.sp.declared.spec.name, q.sp.status, f) else q.w.dir
    ensures s.out == if failure.Some? then Report(q.sp.status, failure.value, AppStatus, f)
                     else if created then if At(f, CreatedPatch).Fine? then Requeue else Error
                     else if !read then Panicked
                     else FinishOutcome(q.w.dir, q.sp.declared.spec.name, q.sp.status, f)
  {
    if failure.Some? {
      SetPhaseIs(q, failure.value, AppStatus, f);
    } else if created {
      PatchIs(q.w, q.sp.status, q.sp.status.(phase := Pending, message := CREATED_MESSAGE));
    } else if read {
      FinishAccount(q, base, f);
    }
  }

  lemma LastTells(q: Pass, s: Step, base: Status, failure: Option<string>, created: bool, read: bool, f: Faults)
    requires CoreLast(q, s, base, failure, created, read, f) && forall e | e in q.log :: !e.GroupJoined?
    ensures forall e: Event | !e.StatusSent? && !e.GroupJoined? :: e in s.p.log <==> e in q.log
    ensures forall e: Event | e.GroupJoined? :: e in s.p.log <==>
              && failure.None? && !created && read
              && AdminJoins(q.w.dir, q.sp.declared.spec.name, q.sp.status, f)
              && e.groupID == q.w.dir.groups[q.sp.declared.spec.name]
  {
    if failure.Some? {
      SetPhaseIs(q, failure.value, AppStatus, f);
    } else if !created && read {
      FinishTells(q, base, f);
    }
  }

  /** The account only depends on the application events of a journal. */
  lemma SameAppEvents(
    apps: map<string, StoredApp>, env: Environment, secret: SecretData, spec: SPSpec, id: int, f: Faults, a: Answers,
    after: map<string, StoredApp>, log: seq<Event>, log': seq<Event>, request: ServiceProviderRequest)
    requires AppAccount(apps, env, secret, spec, id, f, a, after, log, request)
    requires forall e: Event | IsApp(e) :: e in log' <==> e in log
    ensures AppAccount(apps, env, secret, spec, id, f, a, after, log', request)
  {
  }

  lemma GroupsAre(dir: Directory, name: string, a: Answers)
    ensures WithGroup(dir, name, a) ==
            if GroupThere(dir, name) then dir
            else Directory(dir.groups[name := a.groupID], dir.members[a.groupID := a.groupMembers])
  {
  }

  /** From reading the application to the end of the pass: stores, groups and outcome. */
  lemma CoreLeaves(p: Pass, q: Pass, s: Step, f: Faults, a: Answers)
    requires AppFrame(p, q, f, a) && AppEnds(p, q, s, f)
    ensures var spec, st := p.sp.declared.spec, p.sp.status;
            && s.p.w == p.w.(stored := s.p.w.stored, apps := q.w.apps, dir := s.p.w.dir)
            && s.p.w.dir == DirAfter(p.w.apps, p.w.env, p.w.dir, spec, st, f, a)
            && s.out == AppOutcome(p.w.apps, p.w.env, p.w.dir, spec, st, f)
  {
    var apps, spec := p.w.apps, p.sp.declared.spec;
    EndsAreLast(p, q, s, f, a);
    LastLeaves(q, s, p.sp.status, AppFailure(apps, p.w.env, spec, f), spec.name !in apps,
               spec.name in apps && CanBeRead(apps[spec.name].content.localOutbound.steps), f);
    GroupsAre(p.w.dir, spec.name, a);
  }

  lemma CoreTells(p: Pass, q: Pass, s: Step, f: Faults, a: Answers)
    requires AppFrame(p, q, f, a) && AppEnds(p, q, s, f)
    requires forall e | e in p.log :: !e.GroupJoined?
    ensures var spec, st := p.sp.declared.spec, p.sp.status;
            && (forall e: Event | IsApp(e) :: e in s.p.log <==> e in q.log)
            && TellsJoin(s.p.log, p.w.apps, p.w.env, p.w.dir, spec, st, f)
            && (forall e: Event | IsOAuth(e) || IsSaml(e) :: e in s.p.log <==> e in p.log)
  {
    var apps, spec := p.w.apps, p.sp.declared.spec;
    EndsAreLast(p, q, s, f, a);
    LastTells(q, s, p.sp.status, AppFailure(apps, p.w.env, spec, f), spec.name !in apps,
              spec.name in apps && CanBeRead(apps[spec.name].content.localOutbound.steps), f);
  }

  // ---------------------------------------------------------------- what is persisted

  /** The persisted status after a failure has been reported: nothing is written if memory says so already. */
  function Written(persisted: Status, st: Status, msg: string, site: Site, f: Faults): Status {
    if (st.phase.Failed? && st.message == msg) || !At(f, site).Applied() then persisted
    else Status(st.id, st.resourceID, Failed, st.adminCanView, msg)
  }

  /** A merge patch writes the fields in which the target differs from the status it was made from. */
  predicate Patched(persisted: Status, from_: Status, target: Status, after: Status) {
    && after.id == (if target.id == from_.id then persisted.id else target.id)
    && after.resourceID == (if target.resourceID == from_.resourceID then persisted.resourceID else target.resourceID)
    && after.phase == (if target.phase == from_.phase then persisted.phase else target.phase)
    && after.adminCanView == (if target.adminCanView == from_.adminCanView then persisted.adminCanView
                              else target.adminCanView)
    && after.message == (if target.message == from_.message then persisted.message else target.message)
  }

  /** The end of a pass: a failure with the identifiers read; Ready once the administrator is there; and as long as
      they have just been sent to join, nothing. A failure whose report got lost is patched in. */
  predicate FinishPersists(
    dir: Directory, name: string, persisted: Status, st: Status, found: Status, f: Faults, after: Status)
  {
    var failure := AdminFailure(dir, name, st, f);
    if failure.Some? then
      var target := Status(found.id, found.resourceID, Failed, st.adminCanView, failure.value);
      var mid := if At(f, AdminStatus).Applied() then target else persisted;
      if At(f, AdminStatus).Fine? || !At(f, ReadyPatch).Applied() then after == mid else Patched(mid, st, target, after)
    else if AdminJoins(dir, name, st, f) || !At(f, ReadyPatch).Applied() then after == persisted
    else
      var message := "Application in sync (ID: " + found.resourceID + ")";
      Patched(persisted, st, Status(found.id, found.resourceID, Ready, true, message), after)
  }

  /** The application stage, given what is persisted and what is in memory when it starts. */
  ghost predicate AppPersists(
    apps: map<string, StoredApp>, env: Environment, dir: Directory, spec: SPSpec, persisted: Status, st: Status,
    f: Faults, after: Status)
  {
    var failure, found := AppFailure(apps, env, spec, f), Found(apps, spec, st, f);
    if failure.Some? then after == Written(persisted, found, failure.value, AppStatus, f)
    else if spec.name !in apps then
      var message := "Application created, waiting for remote sync";
      if At(f, CreatedPatch).Applied()
      then Patched(persisted, st, Status(st.id, st.resourceID, Pending, st.adminCanView, message), after)
      else after == persisted
    else if !CanBeRead(apps[spec.name].content.localOutbound.steps) then after == persisted
    else FinishPersists(dir, spec.name, persisted, st, found, f, after)
  }

  /** Only the status of the stored object has changed, and it is this one. */
  predicate Stores(before: World, after: World, st: Status) {
    before.stored.Some? && after.stored == Some(before.stored.value.(status := st))
  }

  lemma SetPhaseStores(p: Pass, msg: string, site: Site, f: Faults)
    requires p.w.stored.Some?
    ensures Stores(p.w, SetPhase(p, Failed, msg, site, f).p.w,
                   Written(p.w.stored.value.status, p.sp.status, msg, site, f))
  {
  }

  lemma PatchStores(w: World, base: Status, target: Status)
    requires w.stored.Some?
    ensures var after := MergePatch(w.stored.value.status, base, target);
            Patched(w.stored.value.status, base, target, after) && Stores(w, PatchStatus(w, base, target), after)
  {
  }

  /** Seeing to admin access, as far as the object is concerned. */
  lemma AdminStores(p: Pass, f: Faults)
    requires p.w.stored.Some? && p.sp.status.phase == Ready
    ensures var s, name, st := AdminAccess(p, f), p.sp.declared.spec.name, p.sp.status;
            var failure, joins := AdminFailure(p.w.dir, name, st, f), AdminJoins(p.w.dir, name, st, f);
            var target := st.(phase := Failed, message := failure.UnwrapOr(""));
            if failure.Some? then
              && Stores(p.w, s.p.w, if At(f, AdminStatus).Applied() then target else p.w.stored.value.status)
              && s.p.sp.status == target && (s.out == Zero <==> At(f, AdminStatus).Fail?)
            else
              && s.p.w.stored == p.w.stored && (s.out == Zero <==> !joins)
              && (!joins ==> s.p.sp.status == st.(adminCanView := true))
  {
    AdminAccount(p, f);
    var name, st := p.sp.declared.spec.name, p.sp.status;
    var failure, joins := AdminFailure(p.w.dir, name, st, f), AdminJoins(p.w.dir, name, st, f);
    if failure.Some? {
      var q := p.(w := p.w.(dir := Joined(p.w.dir, name, st, f)),
                  log := if joins then p.log + [GroupJoined(p.w.dir.groups[name])] else p.log);
      SetPhaseStores(q, failure.value, AdminStatus, f);
    }
  }

  lemma FinishStores(p: Pass, base: Status, f: Faults) returns (after: Status)
    requires p.w.stored.Some? && p.sp.status == base.(id := p.sp.status.id, resourceID := p.sp.status.resourceID)
    ensures Stores(p.w, Finish(p, base, p.sp.status.resourceID, f).p.w, after)
    ensures FinishPersists(p.w.dir, p.sp.declared.spec.name, p.w.stored.value.status, base, p.sp.status, f, after)
  {
    var rid := p.sp.status.resourceID;
    var marked := p.(sp := p.sp.(status := p.sp.status.(phase := Ready, message := InSyncMessage(rid))));
    AdminStores(marked, f);
    var admin := AdminAccess(marked, f);
    PatchStores(admin.p.w, base, admin.p.sp.status);
    after := Finish(p, base, rid, f).p.w.stored.value.status;
  }

  lemma LastStores(q: Pass, s: Step, st: Status, failure: Option<string>, created: bool, read: bool, f: Faults)
    returns (after: Status)
    requires CoreLast(q, s, st, failure, created, read, f) && q.w.stored.Some?
    requires q.sp.status == st.(id := q.sp.status.id, resourceID := q.sp.status.resourceID)
    requires created ==> q.sp.status == st
    ensures Stores(q.w, s.p.w, after)
    ensures var persisted, message := q.w.stored.value.status, "Application created, waiting for remote sync";
            if failure.Some? then after == Written(persisted, q.sp.status, failure.value, AppStatus, f)
            else if created then
              if At(f, CreatedPatch).Applied()
              then Patched(persisted, st, Status(st.id, st.resourceID, Pending, st.adminCanView, message), after)
              else after == persisted
            else if !read then after == persisted
            else FinishPersists(q.w.dir, q.sp.declared.spec.name, persisted, st, q.sp.status, f, after)
  {
    if failure.Some? {
      SetPhaseStores(q, failure.value, AppStatus, f);
    } else if created {
      PatchStores(q.w, q.sp.status, q.sp.status.(phase := Pending, message := CREATED_MESSAGE));
    } else if read {
      after := FinishStores(q, st, f);
      return;
    }
    after := s.p.w.stored.value.status;
  }
}
