/** The WSO2SP reconciler as it runs: methods that assign status fields in memory and call out, each
    proved to do exactly what the function of the same name in `Reconcile` says. */
module Reconciler {
  import opened Wrappers
  import opened Application
  import opened World
  import opened Outside
  import Helpers
  import R = Reconcile
  import Secrets

  class WSO2SPReconciler {
    const c: Cluster

    constructor (c: Cluster)
      ensures this.c == c
    {
      this.c := c;
    }

    /** The pass in progress, seen as a value. */
    ghost function Now(sp: WSO2SP): Pass
      reads c, sp
    {
      Pass(c.State(), sp.Value(), c.journal)
    }

    // -------------------------------------------------------------- status

    static lemma PhaseSet(p: Pass, phase: Phase, msg: string, site: Site, f: Faults, q: Pass, out: Outcome)
      requires p.sp.status.phase != phase || p.sp.status.message != msg
      requires q.sp == p.sp.(status := p.sp.status.(phase := phase, message := msg))
      requires q.w == if At(f, site).Applied() then PutStatus(p.w, q.sp.status) else p.w
      requires q.log == p.log + [StatusSent(site, At(f, site).Fine?)]
      requires out == if At(f, site).Fine? then Requeue else Zero
      ensures Step(q, out) == R.SetPhase(p, phase, msg, site, f)
    {
    }

    method SetPhase(sp: WSO2SP, phase: Phase, msg: string, site: Site, f: Faults) returns (out: Outcome)
      modifies c, sp
      ensures Step(Now(sp), out) == R.SetPhase(old(Now(sp)), phase, msg, site, f)
    {
      if sp.phase == phase && sp.message == msg {
        return Requeue;
      }
      ghost var p := Now(sp);
      sp.phase := phase;
      sp.message := msg;
      var st := sp.Observed();
      assert st == p.sp.status.(phase := phase, message := msg);
      var err := c.UpdateStatus(st, site, f);
      assert sp.Value() == p.sp.(status := st);
      out := if err.Some? then Zero else Requeue;
      PhaseSet(p, phase, msg, site, f, Now(sp), out);
    }

    // -------------------------------------------------------------- admin access

    method ReconcileAdminAccess(sp: WSO2SP, f: Faults) returns (out: Outcome)
      modifies c, sp
      ensures Step(Now(sp), out) == R.AdminAccess(old(Now(sp)), f)
    {
      if sp.adminCanView {
        return Zero;
      }
      var joined, groupID, err := c.GetAdminGroupMembership(sp.declared.spec.name, f);
      if err.Some? {
        out := SetPhase(sp, Failed, "admin group lookup failed: " + err.value, AdminStatus, f);
        return;
      }
      if joined {
        sp.adminCanView := true;
        return Zero;
      }
      err := c.JoinAdminToGroup(groupID, f);
      if err.Some? {
        out := SetPhase(sp, Failed, "admin group update failed: " + err.value, AdminStatus, f);
        return;
      }
      return Requeue;
    }

    // -------------------------------------------------------------- the Secret

    method UpsertApplicationSecret(kv: map<string, string>, getSite: Site, writeSite: Site, f: Faults, ghost sp: WSO2SP)
      returns (ok: bool)
      modifies c
      ensures (Now(sp), ok) == R.UpsertSecret(old(Now(sp)), kv, getSite, writeSite, f)
    {
      var kept := Secrets.DropBlank(kv);
      if kept == map[] {
        return true;
      }
      if At(f, getSite).Fail? {
        return false;
      }
      ghost var p := Now(sp);
      var err := c.WriteSecret(kept, writeSite, f);
      SecretWritten(p, kv, getSite, writeSite, f, Now(sp));
      return err.None?;
    }

    static lemma SecretWritten(p: Pass, kv: map<string, string>, getSite: Site, writeSite: Site, f: Faults, q: Pass)
      requires NonBlank(kv) != map[] && At(f, getSite).Fine?
      requires q.sp == p.sp && q.log == p.log && q.w == p.w.(secret := q.w.secret)
      requires q.w.secret == if !At(f, writeSite).Applied() then p.w.secret
                             else Some(if p.w.secret.None? then NonBlank(kv) else p.w.secret.value + NonBlank(kv))
      ensures (q, At(f, writeSite).Fine?) == R.UpsertSecret(p, kv, getSite, writeSite, f)
    {
    }

    /** The Secret's data; nothing when it is missing or has none. */
    method FetchSecret(site: Site, f: Faults) returns (ok: bool, data: map<string, string>)
      ensures ok == At(f, site).Fine?
      ensures data == if c.secret.Some? then c.secret.value else map[]
    {
      return At(f, site).Fine?, if c.secret.Some? then c.secret.value else map[];
    }

    method InboundOAuth(cfg: Option<OAuth2Config>, f: Faults) returns (ok: bool, filled: Option<OAuth2Config>)
      ensures ok == At(f, InboundGetOAuth).Fine?
      ensures filled == R.InboundOAuth(c.secret, cfg)
    {
      var data;
      ok, data := FetchSecret(InboundGetOAuth, f);
      filled := cfg;
      if data != map[] {
        filled := Some(BLANK_OAUTH.(
          oauthConsumerKey := Lookup(data, CLIENT_ID), oauthConsumerSecret := Lookup(data, CLIENT_SECRET)));
      }
    }

    method InboundSaml(cfg: Option<SAMLConfig>, f: Faults) returns (ok: bool, filled: Option<SAMLConfig>)
      ensures ok == At(f, InboundGetSaml).Fine?
      ensures filled == R.InboundSaml(c.secret, cfg)
    {
      var data;
      ok, data := FetchSecret(InboundGetSaml, f);
      filled := cfg;
      if data != map[] {
        filled := Some(BLANK_SAML.(
          issuer := Lookup(data, SAML_ISSUER), attributeConsumingServiceIndex := Lookup(data, SAML_INDEX)));
      }
    }

    /** Keys come from the Secret when there is one with data; otherwise the record stays as it is. */
    method PopulateInboundSecrets(spec: SPSpec, desired: Application, f: Faults) returns (filled: Option<Application>)
      ensures filled == R.PopulateInbound(c.secret, spec, desired, f)
    {
      var oauth2, saml := desired.oauth2, desired.saml;
      if spec.oauth2.Some? {
        var ok;
        ok, oauth2 := InboundOAuth(desired.oauth2, f);
        if !ok {
          return None;
        }
      }
      if spec.saml.Some? {
        var ok;
        ok, saml := InboundSaml(desired.saml, f);
        if !ok {
          return None;
        }
      }
      return Some(desired.(oauth2 := oauth2, saml := saml));
    }

    // -------------------------------------------------------------- OAuth

    method ReconcileApplicationOAuth2(sp: WSO2SP, f: Faults, a: Answers) returns (out: Outcome)
      requires sp.declared.spec.oauth2.Some?
      modifies c, sp
      ensures Step(Now(sp), out) == R.ReconcileOAuth2(old(Now(sp)), f, a)
    {
      var name := sp.declared.spec.name;
      var desired := Helpers.MakeOAuth2(sp.declared.spec.oauth2.value);
      var panicked, existing, err := c.GetApplicationOAuth2Config(name, f);
      if panicked {
        return Panicked;
      }
      if err.Some? {
        out := SetPhase(sp, Failed, err.value, OAuthStatus, f);
        return;
      }
      if existing.None? {
        err := c.CreateApplicationOAuth2Config(name, desired, f, a);
        assert old(c.journal) + [OAuthRead(None)] + [OAuthCreated(name)] == old(c.journal) +
          [OAuthRead(None), OAuthCreated(name)];
        if err.Some? {
          out := SetPhase(sp, Failed, err.value, OAuthStatus, f);
          return;
        }
        return Requeue;
      }
      out := CorrectOAuth2(sp, existing.value, f);
    }

    method CorrectOAuth2(sp: WSO2SP, existing: OAuth2Config, f: Faults) returns (out: Outcome)
      requires sp.declared.spec.oauth2.Some?
      modifies c, sp
      ensures Step(Now(sp), out) == R.CorrectOAuth2(old(Now(sp)), existing, f)
    {
      var ok := UpsertApplicationSecret(
        map[CLIENT_ID := existing.oauthConsumerKey, CLIENT_SECRET := existing.oauthConsumerSecret],
        OAuthSecretGet, OAuthSecretWrite, f, sp);
      if !ok {
        return Error;
      }
      var desired := Helpers.MakeOAuth2(sp.declared.spec.oauth2.value);
      desired := desired.(oauthConsumerKey := existing.oauthConsumerKey,
        oauthConsumerSecret := existing.oauthConsumerSecret);
      if Helpers.OAuth2HasChanged(existing, desired) {
        var err := c.UpdateApplicationOAuth2Config(sp.declared.spec.name, desired, f);
        if err.Some? {
          out := SetPhase(sp, Failed, err.value, OAuthStatus, f);
          return;
        }
        return Requeue;
      }
      return Zero;
    }

    // -------------------------------------------------------------- SAML

    method ReconcileSAMLApplication(sp: WSO2SP, f: Faults, a: Answers) returns (out: Outcome)
      requires sp.declared.spec.saml.Some?
      modifies c, sp
      ensures Step(Now(sp), out) == R.ReconcileSAML(old(Now(sp)), f, a)
    {
      var s := sp.declared.spec.saml.value;
      var cfg, fetchErr := c.Fetch(s.metadataURL, f);
      if cfg.None? {
        out := SetPhase(sp, Failed, "saml metadata fetch failed: " + fetchErr, SamlStatus, f);
        return;
      }
      var desired := cfg.value.(
        enableAttributeProfile := s.enableAttributeProfile,
        enableAttributesByDefault := s.includeAttributesByDefault);
      var existing, err := c.GetApplicationSAMLConfig(desired.issuer, f);
      if err.Some? {
        out := SetPhase(sp, Failed, err.value, SamlStatus, f);
        return;
      }
      if existing.issuer == "" {
        err := c.CreateSAMLApplication(desired, f, a);
        if err.Some? {
          out := SetPhase(sp, Failed, err.value, SamlStatus, f);
          return;
        }
        return Requeue;
      }
      out := CorrectSAML(sp, existing, desired, f, a);
    }

    method CorrectSAML(sp: WSO2SP, existing: SAMLConfig, desired: SAMLConfig, f: Faults, a: Answers)
      returns (out: Outcome)
      modifies c, sp
      ensures Step(Now(sp), out) == R.CorrectSAML(old(Now(sp)), existing, desired, f, a)
    {
      var ok := UpsertApplicationSecret(
        map[SAML_ISSUER := existing.issuer, SAML_INDEX := existing.attributeConsumingServiceIndex],
        SamlSecretGet, SamlSecretWrite, f, sp);
      if !ok {
        return Error;
      }
      if Helpers.SamlSPHasChanged(existing, desired) {
        ghost var p := Now(sp);
        var err := c.UpdateSAMLApplication(desired, f, a);
        SamlUpdated(p, desired, f, a, Now(sp), err);
        if err.Some? {
          out := SetPhase(sp, Failed, err.value, SamlStatus, f);
          return;
        }
      }
      return Zero;
    }

    static lemma SamlUpdated(p: Pass, desired: SAMLConfig, f: Faults, a: Answers, q: Pass, err: Option<string>)
      requires var gone, added := At(f, SamlDelete), At(f, SamlCreate);
               var w := if gone.Applied() then DeleteApp(p.w, desired.issuer) else p.w;
               && q.sp == p.sp
               && q.w == (if gone.Fine? && added.Applied() then AddSaml(w, desired, a) else w)
               && q.log == p.log + (if gone.Fine? then [AppDeleted(desired.issuer)] + [SamlAdded(desired.issuer)]
                                    else [AppDeleted(desired.issuer)])
               && err == if gone.Fail? then Some(gone.err) else Reported(added)
      ensures R.UpdateSaml(p, desired, f, a) ==
              if err.Some? then R.SetPhase(q, Failed, err.value, SamlStatus, f) else Step(q, Zero)
    {
      assert p.log + ([AppDeleted(desired.issuer)] + [SamlAdded(desired.issuer)])
          == p.log + [AppDeleted(desired.issuer)] + [SamlAdded(desired.issuer)];
    }

    // -------------------------------------------------------------- the application

    /** `start` is the pass before the application was looked for. */
    method CreateApplication(sp: WSO2SP, desired: Application, f: Faults, a: Answers, ghost start: Pass)
      returns (out: Outcome)
      requires Now(sp) == start.(log := start.log + [AppRead(None)])
      requires desired == Helpers.ApplicationFromSpec(sp.declared.spec, sp.id, sp.resourceID)
      modifies c, sp
      ensures Step(Now(sp), out) == R.CreateApplication(start, f, a)
    {
      var base := sp.Observed();
      var err := c.CreateApplication(desired, f, a);
      assert start.log + [AppRead(None)] + [AppCreated(desired.name)] == start.log +
        [AppRead(None), AppCreated(desired.name)];
      if err.Some? {
        out := SetPhase(sp, Failed, "create failed: " + err.value, AppStatus, f);
        return;
      }
      sp.phase := Pending;
      sp.message := CREATED_MESSAGE;
      err := c.SendPatch(base, sp.Observed(), CreatedPatch, f);
      if err.Some? {
        return Error;
      }
      return Requeue;
    }

    /** The tail of a pass. */
    method Finish(sp: WSO2SP, base: Status, resourceID: string, f: Faults) returns (out: Outcome)
      modifies c, sp
      ensures Step(Now(sp), out) == R.Finish(old(Now(sp)), base, resourceID, f)
    {
      sp.phase := Ready;
      sp.message := R.InSyncMessage(resourceID);
      out := ReconcileAdminAccess(sp, f);
      if out != Zero {
        return;
      }
      var err := c.SendPatch(base, sp.Observed(), ReadyPatch, f);
      if err.Some? {
        return Error;
      }
      return Requeue;
    }

    /** The record with its claims in a backing array of its own. */
    method Backed(app: Application) returns (r: Helpers.AppRecord)
      ensures fresh(r.Frame()) && r.Value() == app
    {
      if app.claims == [] {
        return Helpers.AppRecord(app, null);
      }
      var claims := new Claim[|app.claims|](i requires 0 <= i < |app.claims| => app.claims[i]);
      assert claims[..] == app.claims;
      return Helpers.AppRecord(app, claims);
    }

    /** `sorted` is the desired record after the comparison has sorted its claims in place. */
    method SendUpdate(sp: WSO2SP, sorted: Application, f: Faults, ghost desired: Application)
      returns (ok: bool, out: Outcome)
      requires sorted == desired.(claims := Helpers.SortClaims(desired.claims))
      modifies c, sp
      ensures (Step(Now(sp), out), ok) == R.SendUpdate(old(Now(sp)), desired, f)
    {
      var filled := PopulateInboundSecrets(sp.declared.spec, sorted, f);
      if filled.None? {
        out := SetPhase(sp, Failed, R.InboundErrorMessage(sp.declared.spec, f), AppStatus, f);
        return false, out;
      }
      var err := c.UpdateApplication(filled.value, f);
      if err.Some? {
        out := SetPhase(sp, Failed, "update failed: " + err.value, AppStatus, f);
        return false, out;
      }
      return true, Zero;
    }

    /** The comparison, and the update it may call for. */
    method CompareAndSend(sp: WSO2SP, existing: Application, desired: Application, f: Faults)
      returns (ok: bool, out: Outcome)
      modifies c, sp
      ensures (Step(Now(sp), out), ok) ==
              if Helpers.AppHasChanged(existing, desired) then R.SendUpdate(old(Now(sp)), desired, f)
              else (Step(old(Now(sp)), Zero), true)
    {
      var e := Backed(existing);
      var d := Backed(desired);
      var changed := Helpers.CompareApplications(e, d);
      if changed {
        ok, out := SendUpdate(sp, d.Value(), f, desired);
      } else {
        ok, out := true, Zero;
      }
    }

    /** The script only when a ConfigMap is named and steps are given. */
    method LoadScript(spec: SPSpec, plain: Application, f: Faults) returns (desired: Option<Application>)
      requires plain == Helpers.ApplicationFromSpec(spec, plain.id, plain.resourceID)
      ensures desired == R.DesiredApp(c.env, spec, plain.id, plain.resourceID, f)
    {
      if spec.authenticationScript.Some? && spec.authenticationSteps.Of? {
        var name := spec.authenticationScript.value;
        if At(f, ScriptGet).Fail? || name !in c.env.configMaps {
          return None;
        }
        return Some(plain.(authenticationScript := Lookup(c.env.configMaps[name], "script")));
      }
      return Some(plain);
    }

    /** In memory only; the tail of the pass writes them. */
    method RefreshIdentifiers(sp: WSO2SP, existing: Application)
      modifies sp
      ensures sp.Value() == old(sp.Value()).(
                status := old(sp.Observed()).(id := existing.id, resourceID := existing.resourceID))
    {
      if sp.id != existing.id || sp.resourceID != existing.resourceID {
        sp.id := existing.id;
        sp.resourceID := existing.resourceID;
      }
    }

    method SyncApplication(sp: WSO2SP, existing: Application, plain: Application, f: Faults, ghost start: Pass)
      returns (out: Outcome)
      requires Now(sp) == start.(log := start.log + [AppRead(Some((existing.id, existing.resourceID)))])
      requires plain == Helpers.ApplicationFromSpec(sp.declared.spec, sp.id, sp.resourceID)
      modifies c, sp
      ensures Step(Now(sp), out) == R.SyncApplication(start, existing, f)
    {
      var base := sp.Observed();
      RefreshIdentifiers(sp, existing);
      var desired := LoadScript(sp.declared.spec, plain, f);
      if desired.None? {
        out := SetPhase(sp, Failed, "failed to get auth script configmap: " + ErrorText(At(f, ScriptGet)),
                          AppStatus, f);
        return;
      }
      var ok;
      ok, out := CompareAndSend(sp, existing, desired.value, f);
      if !ok {
        return;
      }
      out := Finish(sp, base, existing.resourceID, f);
    }

    method ReconcileCore(sp: WSO2SP, f: Faults, a: Answers) returns (out: Outcome)
      modifies c, sp
      ensures Step(Now(sp), out) == R.ReconcileCore(old(Now(sp)), f, a)
    {
      ghost var start := Now(sp);
      var desired := Helpers.MakeApplication(sp.declared.spec, sp.id, sp.resourceID);
      var panicked, existing, err := c.GetApplicationByName(sp.declared.spec.name, f);
      if err.Some? {
        out := SetPhase(sp, Failed, err.value, AppStatus, f);
      } else if panicked {
        out := Panicked;
      } else if existing.None? {
        out := CreateApplication(sp, desired, f, a, start);
      } else {
        out := SyncApplication(sp, existing.value, desired, f, start);
      }
    }

    /** A zero result of a sub-step means "carry on". */
    method ReconcileApplication(sp: WSO2SP, f: Faults, a: Answers) returns (out: Outcome)
      modifies c, sp
      ensures Step(Now(sp), out) == R.ReconcileApplication(old(Now(sp)), f, a)
    {
      var d := sp.declared;
      if d.spec.oauth2.Some? && !Skip(RECONCILE_OAUTH, d.annotations) {
        out := ReconcileApplicationOAuth2(sp, f, a);
        if out != Zero {
          return;
        }
      }
      if d.spec.saml.Some? && d.spec.saml.value.metadataURL != "" && !Skip(RECONCILE_SAML, d.annotations) {
        out := ReconcileSAMLApplication(sp, f, a);
        if out != Zero {
          return;
        }
      }
      out := ReconcileCore(sp, f, a);
    }

    // -------------------------------------------------------------- deletion and the whole pass

    method HandleDelete(sp: WSO2SP, f: Faults) returns (out: Outcome)
      modifies c, sp
      ensures Step(Now(sp), out) == R.HandleDelete(old(Now(sp)), f)
    {
      if sp.resourceID != "" {
        var _ := c.DeleteApplication(sp.declared.spec.name, RemoteDelete, f);
      }
      sp.finalizers := sp.finalizers - {SP_FINALIZER};
      var err := c.UpdateFinalizers(sp.finalizers, f);
      if err.Some? {
        return Error;
      }
      return Zero;
    }

    /** Why no client can be built, if so. */
    method BuildClient(spec: SPSpec, f: Faults) returns (err: Option<string>)
      ensures err == R.GateError(c.env, spec, f)
    {
      if At(f, GetInstance).Fail? {
        return Some(At(f, GetInstance).err);
      }
      if spec.instanceRef !in c.env.instances {
        return Some("WSO2ISInstance not found: " + spec.instanceRef);
      }
      var instance := c.env.instances[spec.instanceRef];
      if instance.phase != Ready {
        return Some("WSO2ISInstance is not ready: " + instance.message);
      }
      if At(f, GetCredentials).Fail? || !instance.credentials {
        return Some("credentials secret: " + ErrorText(At(f, GetCredentials)));
      }
      return None;
    }

    method Pause(sp: WSO2SP, f: Faults) returns (out: Outcome)
      modifies c, sp
      ensures Step(Now(sp), out) == R.PauseStep(old(Now(sp)), f)
    {
      if sp.phase != Paused {
        sp.phase := Paused;
        var err := c.UpdateStatus(sp.Observed(), PauseWrite, f);
        if err.Some? {
          return Error;
        }
      }
      return Zero;
    }

    method AddFinalizer(sp: WSO2SP, f: Faults) returns (out: Outcome)
      modifies c, sp
      ensures Step(Now(sp), out) == R.AddFinalizer(old(Now(sp)), f)
    {
      sp.finalizers := sp.finalizers + {SP_FINALIZER};
      var err := c.UpdateFinalizers(sp.finalizers, f);
      if err.Some? {
        return Error;
      }
      return Zero;
    }

    method ReconcileObject(sp: WSO2SP, f: Faults, a: Answers) returns (out: Outcome)
      modifies c, sp
      ensures Step(Now(sp), out) == R.ReconcileObject(old(Now(sp)), f, a)
    {
      if Skip(RECONCILE_APP, sp.declared.annotations) {
        out := Pause(sp, f);
        return;
      }
      var gate := BuildClient(sp.declared.spec, f);
      if gate.Some? {
        out := SetPhase(sp, Pending, gate.value, InstanceStatus, f);
        return;
      }
      if sp.declared.deleting {
        out := HandleDelete(sp, f);
        return;
      }
      if SP_FINALIZER !in sp.finalizers {
        out := AddFinalizer(sp, f);
        return;
      }
      out := ReconcileApplication(sp, f, a);
    }

    /** One reconcile pass over a persisted object does to the world exactly what `Reconcile.Run` says,
        so every theorem about `Run` is a theorem about this method. */
    method Reconcile(f: Faults, a: Answers) returns (out: Outcome)
      modifies c
      ensures R.Ran(c.State(), c.journal, out) == R.Run(old(c.State()), f, a)
    {
      c.StartPass();
      if At(f, GetObject).Fail? {
        return Error;
      }
      if c.stored.None? {
        return Zero;
      }
      var sp := new WSO2SP(c.stored.value);
      out := ReconcileObject(sp, f, a);
    }
  }
}
