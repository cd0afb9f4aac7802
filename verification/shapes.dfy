/** The shape of every stage of a pass, under any faults: where it can stop, what it may have
    changed by then, and what its journal has gained. Everything in `Safety` follows from these. */
module Shapes {
  import opened Wrappers
  import opened Application
  import opened Server
  import opened Credentials
  import opened World
  import opened Reconcile
  import Builder
  import Convergence
  import Helpers
  import Mapper
  import RoundTrip
  import Secrets

  /** The part of a pass an event belongs to. */
  datatype Part = OAuthPart | SamlPart | AppPart | StatusPart

  function PartOf(e: Event): Part {
    match e
    case OAuthRead(_) | OAuthCreated(_) | OAuthUpdated(_) => OAuthPart
    case SamlRead(_) | SamlAdded(_) | AppDeleted(_) => SamlPart
    case AppRead(_) | AppCreated(_) | AppUpdated(_) | GroupJoined(_) => AppPart
    case StatusSent(_, _) => StatusPart
  }

  /** The journal has grown, by events of one part only. */
  predicate Grown(before: seq<Event>, after: seq<Event>, part: Part) {
    before <= after && forall i | |before| <= i < |after| :: PartOf(after[i]) == part
  }

  lemma GrowByOne(before: seq<Event>, e: Event)
    ensures Grown(before, before + [e], PartOf(e))
  {
  }

  lemma GrowByTwo(before: seq<Event>, e: Event, e': Event)
    requires PartOf(e) == PartOf(e')
    ensures Grown(before, before + [e, e'], PartOf(e)) && Grown(before, before + [e] + [e'], PartOf(e))
  {
  }

  lemma GrowMore(before: seq<Event>, e: Event, after: seq<Event>)
    requires Grown(before + [e], after, PartOf(e))
    ensures Grown(before, after, PartOf(e)) && after[|before|] == e
  {
    assert (before + [e])[|before|] == e;
  }

  // ---------------------------------------------------------------- recording a failure

  lemma SetPhaseShape(p: Pass, phase: Phase, msg: string, site: Site, f: Faults)
    requires p.w.stored.Some?
    ensures var s := SetPhase(p, phase, msg, site, f);
            && s.p.sp == p.sp.(status := p.sp.status.(phase := phase, message := msg))
            && s.p.w.stored.Some?
            && s.p.w == p.w.(stored := Some(p.w.stored.value.(status := s.p.w.stored.value.status)))
            && (s.p.w.stored.value.status == p.w.stored.value.status || s.p.w.stored.value.status == s.p.sp.status)
            && (s.out == Requeue || s.out == Zero)
            && (s.p.log == p.log || s.p.log == p.log + [StatusSent(site, s.out == Requeue)])
            && (s.out == Zero ==> s.p.log == p.log + [StatusSent(site, false)])
  {
  }

  // ---------------------------------------------------------------- OAuth

  /** The OAuth stage: up to recording a failure only OAuth registrations and the Secret have changed.
      When it lets the pass go on, even after a lost failure report, a key that was read is in the Secret. */
  lemma OAuthShape(p: Pass, f: Faults, a: Answers) returns (q: Pass, failed: bool, msg: string)
    requires p.log == []
    ensures var s := OAuthStage(p, f, a);
            s == if failed then SetPhase(q, Failed, msg, OAuthStatus, f) else Step(q, s.out)
    ensures q.sp == p.sp && q.w == p.w.(oauth := q.w.oauth, secret := q.w.secret) && Grown(p.log, q.log, OAuthPart)
    ensures q.w.secret == Secrets.After(p.w.secret, OAuthStored(p.w.oauth, p.sp.declared, f))
    ensures !OAuthActive(p.sp.declared) ==> !failed && q == p && OAuthStage(p, f, a).out == Zero
    ensures OAuthReads(p.w, p.sp.declared, f, q.log)
    ensures OAuthActive(p.sp.declared) && OAuthStage(p, f, a).out == Zero && !failed ==>
        OAuthAnswered(p.w.oauth, p.sp.declared, f)
    ensures OAuthStage(p, f, a).out == Zero ==> Secrets.Get(q.w.secret, CLIENT_ID) == KeySent(p.w, p.sp.declared, f)
  {
    q, failed, msg := p, false, "";
    var d := p.sp.declared;
    if OAuthActive(d) && At(f, OAuthTransport).Fine? {
      if At(f, OAuthGet).Fail? {
        failed, msg := true, At(f, OAuthGet).err;
      } else if d.spec.name !in p.w.oauth {
        var fault := At(f, OAuthCreate);
        var r := RegisterOAuth(Builder.BuildOAuthApplication(d.spec.name, Helpers.OAuth2FromSpec(d.spec.oauth2.value)),
                               a.clientID, a.clientSecret);
        q := p.(w := if fault.Applied() then WithOAuth(p.w, d.spec.name, r) else p.w,
                log := p.log + [OAuthRead(None), OAuthCreated(d.spec.name)]);
        GrowByTwo(p.log, OAuthRead(None), OAuthCreated(d.spec.name));
        failed, msg := fault.Fail?, ErrorText(fault);
      } else {
        var existing := Mapper.MapGetOAuthApplication(p.w.oauth[d.spec.name]);
        var read := OAuthRead(Some(existing.oauthConsumerKey));
        q, failed, msg := CorrectOAuth2Shape(p.(log := p.log + [read]), existing, f);
        GrowMore(p.log, read, q.log);
      }
    }
  }

  /** What the OAuth stage leaves in a journal that was empty: at most one read, with the registered key. */
  predicate OAuthReads(w: World, d: Declared, f: Faults, log: seq<Event>) {
    && (forall e | e in log && e.OAuthRead? :: e.found == KeyRead(w.oauth, d, f))
    && (OAuthAnswered(w.oauth, d, f) ==> OAuthRead(KeyRead(w.oauth, d, f)) in log)
  }

  /** An upsert leaves the Secret as one effective upsert does, or as it was. */
  lemma SecretShape(p: Pass, kv: map<string, string>, getSite: Site, writeSite: Site, f: Faults)
    ensures var (q, ok) := UpsertSecret(p, kv, getSite, writeSite, f);
            && q == p.(w := p.w.(secret := q.w.secret))
            && q.w.secret == (if Stores(kv, getSite, writeSite, f) then Upserted(p.w.secret, kv) else p.w.secret)
            && (ok ==> q.w.secret == Upserted(p.w.secret, kv))
  {
  }

  lemma CorrectOAuth2Shape(p: Pass, existing: OAuth2Config, f: Faults) returns (q: Pass, failed: bool, msg: string)
    requires p.sp.declared.spec.oauth2.Some?
    ensures var s := CorrectOAuth2(p, existing, f);
            && (s == if failed then SetPhase(q, Failed, msg, OAuthStatus, f) else Step(q, s.out))
            && (s.out == Zero ==>
                  Secrets.Get(q.w.secret, CLIENT_ID) ==
                    Prefer(existing.oauthConsumerKey, Secrets.Get(p.w.secret, CLIENT_ID)))
    ensures q.sp == p.sp && q.w == p.w.(oauth := q.w.oauth, secret := q.w.secret) && Grown(p.log, q.log, OAuthPart)
    ensures q.w.secret == if Stores(OAuthKeys(existing), OAuthSecretGet, OAuthSecretWrite, f)
                          then Upserted(p.w.secret, OAuthKeys(existing)) else p.w.secret
    ensures forall e | e in q.log && e.OAuthRead? :: e in p.log
  {
    failed, msg := false, "";
    KeysDiffer();
    SecretShape(p, OAuthKeys(existing), OAuthSecretGet, OAuthSecretWrite, f);
    var (r, ok) := UpsertSecret(p, OAuthKeys(existing), OAuthSecretGet, OAuthSecretWrite, f);
    q := r;
    if ok {
      Secrets.UpsertedValue(p.w.secret, OAuthKeys(existing), CLIENT_ID);
      var name, desired := p.sp.declared.spec.name, DesiredOAuth(p.sp.declared.spec.oauth2.value, existing);
      if Helpers.OAuth2HasChanged(existing, desired) {
        var fault := At(f, OAuthUpdate);
        q := r.(w := if fault.Applied() then WithOAuth(r.w, name, Builder.BuildOAuthApplication(name, desired))
          else r.w,
                log := r.log + [OAuthUpdated(name)]);
        GrowByOne(p.log, OAuthUpdated(name));
        failed, msg := fault.Fail?, ErrorText(fault);
      }
    }
  }

  // ---------------------------------------------------------------- SAML

  /** The SAML stage: up to recording a failure only SAML registrations, the Secret and, through a
      correction, the application named after the issuer have changed. */
  lemma SamlShape(p: Pass, f: Faults, a: Answers) returns (q: Pass, failed: bool, msg: string)
    requires forall e | e in p.log :: !e.SamlRead?
    ensures var s := SamlStage(p, f, a);
            s == if failed then SetPhase(q, Failed, msg, SamlStatus, f) else Step(q, s.out)
    ensures q.sp == p.sp && q.w == p.w.(saml := q.w.saml, secret := q.w.secret, apps := q.w.apps)
        && Grown(p.log, q.log, SamlPart)
    ensures q.w.secret == Secrets.After(p.w.secret, SamlStored(p.w.saml, p.w.env, p.sp.declared, f))
    ensures !SamlActive(p.sp.declared) ==> !failed && q == p && SamlStage(p, f, a).out == Zero
    ensures SamlReads(p.w, p.sp.declared, f, q.log)
    ensures SamlActive(p.sp.declared) && SamlStage(p, f, a).out == Zero && !failed ==>
              SamlAnswered(p.w.saml, p.w.env, p.sp.declared, f)
    ensures SamlStage(p, f, a).out == Zero ==> Secrets.Get(q.w.secret, SAML_ISSUER) == IssuerSent(p.w, p.sp.declared, f)
  {
    q, failed, msg := p, false, "";
    var d := p.sp.declared;
    if SamlActive(d) {
      if At(f, MetadataFetch).Fail? || !Usable(p.w.env, d.spec.saml.value.metadataURL) {
        failed := true;
        msg := "saml metadata fetch failed: " +
               (if At(f, MetadataFetch).Fail? then At(f, MetadataFetch).err else METADATA_UNUSABLE);
      } else if At(f, SamlGet).Fail? {
        failed, msg := true, At(f, SamlGet).err;
      } else {
        q, failed, msg := SamlReadShape(p, f, a);
      }
    }
  }

  /** What the SAML stage leaves in a journal without SAML reads: at most one, of the registered issuer. */
  predicate SamlReads(w: World, d: Declared, f: Faults, log: seq<Event>) {
    && (forall e | e in log && e.SamlRead? :: e.issuer == IssuerRead(w.saml, w.env, d, f))
    && (SamlAnswered(w.saml, w.env, d, f) ==> SamlRead(IssuerRead(w.saml, w.env, d, f)) in log)
  }

  /** From a successful read of the registration on. */
  lemma SamlReadShape(p: Pass, f: Faults, a: Answers) returns (q: Pass, failed: bool, msg: string)
    requires SamlActive(p.sp.declared) && At(f, MetadataFetch).Fine? && At(f, SamlGet).Fine?
    requires Usable(p.w.env, p.sp.declared.spec.saml.value.metadataURL) && forall e | e in p.log :: !e.SamlRead?
    ensures var s := ReconcileSAML(p, f, a);
            s == if failed then SetPhase(q, Failed, msg, SamlStatus, f) else Step(q, s.out)
    ensures q.sp == p.sp && q.w == p.w.(saml := q.w.saml, secret := q.w.secret, apps := q.w.apps)
        && Grown(p.log, q.log, SamlPart)
    ensures q.w.secret == Secrets.After(p.w.secret, SamlStored(p.w.saml, p.w.env, p.sp.declared, f))
    ensures SamlReads(p.w, p.sp.declared, f, q.log)
    ensures ReconcileSAML(p, f, a).out == Zero && !failed ==> SamlAnswered(p.w.saml, p.w.env, p.sp.declared, f)
    ensures ReconcileSAML(p, f, a).out == Zero ==>
        Secrets.Get(q.w.secret, SAML_ISSUER) == IssuerSent(p.w, p.sp.declared, f)
  {
    if SamlAnswered(p.w.saml, p.w.env, p.sp.declared, f) {
      q, failed, msg := SamlPresentShape(p, f, a);
    } else {
      q, failed, msg := SamlAbsentShape(p, f, a);
    }
  }

  lemma SamlPresentShape(p: Pass, f: Faults, a: Answers) returns (q: Pass, failed: bool, msg: string)
    requires SamlAnswered(p.w.saml, p.w.env, p.sp.declared, f)
    ensures var s := ReconcileSAML(p, f, a);
            s == if failed then SetPhase(q, Failed, msg, SamlStatus, f) else Step(q, s.out)
    ensures q.sp == p.sp && q.w == p.w.(saml := q.w.saml, secret := q.w.secret, apps := q.w.apps)
        && Grown(p.log, q.log, SamlPart)
    ensures var existing := AnsweredSaml(p.w.saml, p.w.env, p.sp.declared, f);
            && q.w.secret == (if Stores(SamlKeys(existing), SamlSecretGet, SamlSecretWrite, f)
                              then Upserted(p.w.secret, SamlKeys(existing)) else p.w.secret)
            && SamlRead(existing.issuer) in q.log
            && (forall e | e in q.log && e.SamlRead? :: e in p.log || e == SamlRead(existing.issuer))
            && (ReconcileSAML(p, f, a).out == Zero ==> Secrets.Get(q.w.secret, SAML_ISSUER) == existing.issuer)
  {
    var desired := DesiredSaml(p.w.env, p.sp.declared.spec.saml.value);
    var existing := AnsweredSaml(p.w.saml, p.w.env, p.sp.declared, f);
    var read := SamlRead(existing.issuer);
    q, failed, msg := CorrectSAMLShape(p.(log := p.log + [read]), existing, desired, f, a);
    GrowMore(p.log, read, q.log);
  }

  lemma SamlAbsentShape(p: Pass, f: Faults, a: Answers) returns (q: Pass, failed: bool, msg: string)
    requires SamlActive(p.sp.declared) && At(f, MetadataFetch).Fine? && At(f, SamlGet).Fine?
    requires Usable(p.w.env, p.sp.declared.spec.saml.value.metadataURL)
    requires ReadSaml(p.w.saml, DesiredSaml(p.w.env, p.sp.declared.spec.saml.value).issuer).issuer == ""
    ensures var s := ReconcileSAML(p, f, a);
            s == (if failed then SetPhase(q, Failed, msg, SamlStatus, f) else Step(q, s.out))
              && (s.out == Zero ==> failed)
    ensures q.sp == p.sp && q.w == p.w.(saml := q.w.saml) && Grown(p.log, q.log, SamlPart)
    ensures forall e | e in q.log && e.SamlRead? :: e in p.log || e.issuer == ""
  {
    var desired := DesiredSaml(p.w.env, p.sp.declared.spec.saml.value);
    var read, fault := SamlRead(ReadSaml(p.w.saml, desired.issuer).issuer), At(f, SamlCreate);
    q := p.(w := if fault.Applied() then AddSaml(p.w, desired, a) else p.w,
            log := p.log + [read] + [SamlAdded(desired.issuer)]);
    GrowByTwo(p.log, read, SamlAdded(desired.issuer));
    failed, msg := fault.Fail?, ErrorText(fault);
  }

  lemma CorrectSAMLShape(p: Pass, existing: SAMLConfig, desired: SAMLConfig, f: Faults, a: Answers)
    returns (q: Pass, failed: bool, msg: string)
    ensures var s := CorrectSAML(p, existing, desired, f, a);
            && (s == if failed then SetPhase(q, Failed, msg, SamlStatus, f) else Step(q, s.out))
            && (s.out == Zero ==>
                  Secrets.Get(q.w.secret, SAML_ISSUER) == Prefer(existing.issuer, Secrets.Get(p.w.secret, SAML_ISSUER)))
    ensures q.sp == p.sp && q.w == p.w.(saml := q.w.saml, secret := q.w.secret, apps := q.w.apps)
        && Grown(p.log, q.log, SamlPart)
    ensures q.w.secret == if Stores(SamlKeys(existing), SamlSecretGet, SamlSecretWrite, f)
                          then Upserted(p.w.secret, SamlKeys(existing)) else p.w.secret
    ensures forall e | e in q.log && e.SamlRead? :: e in p.log
  {
    failed, msg := false, "";
    KeysDiffer();
    SecretShape(p, SamlKeys(existing), SamlSecretGet, SamlSecretWrite, f);
    var (r, ok) := UpsertSecret(p, SamlKeys(existing), SamlSecretGet, SamlSecretWrite, f);
    q := r;
    if ok {
      Secrets.UpsertedValue(p.w.secret, SamlKeys(existing), SAML_ISSUER);
      if Helpers.SamlSPHasChanged(existing, desired) {
        q, failed, msg := UpdateSamlShape(r, desired, f, a);
      }
    }
  }

  lemma UpdateSamlShape(p: Pass, desired: SAMLConfig, f: Faults, a: Answers)
    returns (q: Pass, failed: bool, msg: string)
    ensures var s := UpdateSaml(p, desired, f, a);
            s == if failed then SetPhase(q, Failed, msg, SamlStatus, f) else Step(q, s.out)
    ensures q.sp == p.sp && q.w == p.w.(saml := q.w.saml, apps := q.w.apps) && Grown(p.log, q.log, SamlPart)
    ensures forall e | e in q.log && e.SamlRead? :: e in p.log
  {
    var gone, added := At(f, SamlDelete), At(f, SamlCreate);
    q := p.(w := if gone.Applied() then DeleteApp(p.w, desired.issuer) else p.w,
            log := p.log + [AppDeleted(desired.issuer)]);
    GrowByOne(p.log, AppDeleted(desired.issuer));
    failed, msg := gone.Fail?, ErrorText(gone);
    if gone.Fine? {
      q := q.(w := if added.Applied() then AddSaml(q.w, desired, a) else q.w,
              log := q.log + [SamlAdded(desired.issuer)]);
      GrowByTwo(p.log, AppDeleted(desired.issuer), SamlAdded(desired.issuer));
      failed, msg := added.Fail?, ErrorText(added);
    }
  }

  // ---------------------------------------------------------------- the application

  /** How the application stage ends. */
  datatype Ending =
    | Recorded(msg: string)                 // a failure handed to setPhase directly
    | Created                               // after the Pending patch
    | Finished(id: int, resourceID: string) // through the tail of the pass
    | Panics

  /** The application stage up to its last act: only applications and groups have changed. */
  lemma CoreShape(p: Pass, f: Faults, a: Answers) returns (q: Pass, ending: Ending)
    ensures var s := ReconcileCore(p, f, a);
            match ending
            case Recorded(msg) => s == SetPhase(q, Failed, msg, AppStatus, f)
            case Created =>
              var st := p.sp.status.(phase := Pending, message := CREATED_MESSAGE);
              var patch := At(f, CreatedPatch);
              && q.sp == p.sp
              && s == Step(Pass(if patch.Applied() then PatchStatus(q.w, p.sp.status, st) else q.w,
                                p.sp.(status := st), q.log + [StatusSent(CreatedPatch, patch.Fine?)]),
                           if patch.Fine? then Requeue else Error)
            case Finished(id, resourceID) =>
              && s == Finish(q, p.sp.status, resourceID, f)
              && q.sp == p.sp.(status := p.sp.status.(id := id, resourceID := resourceID))
              && AppRead(Some((id, resourceID))) in q.log
            case Panics => s == Step(q, Panicked)
    ensures q.sp.declared == p.sp.declared && q.sp.finalizers == p.sp.finalizers
    ensures q.sp.status.adminCanView == p.sp.status.adminCanView
    ensures q.w == p.w.(apps := q.w.apps, dir := q.w.dir) && Grown(p.log, q.log, AppPart)
    ensures ending.Finished? ==> q.w.dir == p.w.dir
    ensures forall e | e in q.log && e.AppUpdated? :: e in p.log || SentFor(p, e.request)
  {
    q := p;
    if At(f, AppGet).Fail? {
      ending := Recorded(At(f, AppGet).err);
    } else if p.sp.declared.spec.name !in p.w.apps {
      q, ending := CreateShape(p, f, a);
    } else {
      var read := Mapper.MapGetApplication(EchoApplication(p.w.apps[p.sp.declared.spec.name]));
      if read.Panic? {
        ending := Panics;
      } else {
        q, ending := SyncShape(p, read.value, f);
      }
    }
  }

  /** The request was built from the spec, its script, the identifiers recorded before, and the Secret. */
  predicate SentFor(p: Pass, request: ServiceProviderRequest) {
    var spec := p.sp.declared.spec;
    && (WantsScript(spec) ==> spec.authenticationScript.value in p.w.env.configMaps)
    && request == Builder.BuildUpdateApplication(
                    Convergence.OutgoingApp(p.w.secret, p.w.env, spec, p.sp.status.id, p.sp.status.resourceID))
  }

  lemma CreateShape(p: Pass, f: Faults, a: Answers) returns (q: Pass, ending: Ending)
    ensures var s := CreateApplication(p, f, a);
            var st := p.sp.status.(phase := Pending, message := CREATED_MESSAGE);
            var patch := At(f, CreatedPatch);
            || (ending.Recorded? && s == SetPhase(q, Failed, ending.msg, AppStatus, f))
            || (ending.Created? && q.sp == p.sp &&
                s == Step(Pass(if patch.Applied() then PatchStatus(q.w, p.sp.status, st) else q.w,
                               p.sp.(status := st), q.log + [StatusSent(CreatedPatch, patch.Fine?)]),
                          if patch.Fine? then Requeue else Error))
    ensures q.sp == p.sp && q.w == p.w.(apps := q.w.apps, dir := q.w.dir)
    ensures Grown(p.log, q.log, AppPart) && forall e | e in q.log && e.AppUpdated? :: e in p.log
  {
    var desired := Helpers.ApplicationFromSpec(p.sp.declared.spec, p.sp.status.id, p.sp.status.resourceID);
    var fault := At(f, AppCreate);
    q := p.(w := if fault.Applied() then CreateApp(p.w, desired, a) else p.w,
            log := p.log + [AppRead(None), AppCreated(desired.name)]);
    GrowByTwo(p.log, AppRead(None), AppCreated(desired.name));
    ending := if fault.Fail? then Recorded("create failed: " + fault.err) else Created;
  }

  lemma SyncShape(p: Pass, existing: Application, f: Faults) returns (q: Pass, ending: Ending)
    ensures var s := SyncApplication(p, existing, f);
            || (ending.Recorded? && s == SetPhase(q, Failed, ending.msg, AppStatus, f))
            || (&& ending == Finished(existing.id, existing.resourceID)
                && s == Finish(q, p.sp.status, existing.resourceID, f))
    ensures q.sp == p.sp.(status := p.sp.status.(id := existing.id, resourceID := existing.resourceID))
    ensures q.w == p.w.(apps := q.w.apps) && Grown(p.log, q.log, AppPart)
    ensures AppRead(Some((existing.id, existing.resourceID))) in q.log
    ensures forall e | e in q.log && e.AppUpdated? :: e in p.log || SentFor(p, e.request)
  {
    var sent;
    q, sent, ending := SyncSteps(p, existing, f);
    SyncJournal(p, AppRead(Some((existing.id, existing.resourceID))), sent, q.log);
  }

  lemma SyncJournal(p: Pass, read: Event, sent: Option<ServiceProviderRequest>, log: seq<Event>)
    requires read.AppRead? && (sent.Some? ==> SentFor(p, sent.value))
    requires log == if sent.Some? then p.log + [read] + [AppUpdated(sent.value)] else p.log + [read]
    ensures Grown(p.log, log, AppPart) && read in log
    ensures forall e | e in log && e.AppUpdated? :: e in p.log || SentFor(p, e.request)
  {
    assert log[|p.log|] == read;
    GrowByOne(p.log, read);
    if sent.Some? {
      OneMoreSent(p, p.log + [read], sent.value);
      GrowByTwo(p.log, read, AppUpdated(sent.value));
    }
  }

  /** The same with the journal spelt out: one read, then at most one update. */
  lemma SyncSteps(p: Pass, existing: Application, f: Faults)
    returns (q: Pass, sent: Option<ServiceProviderRequest>, ending: Ending)
    ensures var s := SyncApplication(p, existing, f);
            || (ending.Recorded? && s == SetPhase(q, Failed, ending.msg, AppStatus, f))
            || (&& ending == Finished(existing.id, existing.resourceID)
                && s == Finish(q, p.sp.status, existing.resourceID, f))
    ensures q.sp == p.sp.(status := p.sp.status.(id := existing.id, resourceID := existing.resourceID))
    ensures q.w == p.w.(apps := q.w.apps)
    ensures var log := p.log + [AppRead(Some((existing.id, existing.resourceID)))];
            q.log == if sent.Some? then log + [AppUpdated(sent.value)] else log
    ensures sent.Some? ==> SentFor(p, sent.value)
  {
    var base, spec := p.sp.status, p.sp.declared.spec;
    q := p.(sp := p.sp.(status := p.sp.status.(id := existing.id, resourceID := existing.resourceID)),
            log := p.log + [AppRead(Some((existing.id, existing.resourceID)))]);
    sent := None;
    var want := DesiredApp(p.w.env, spec, base.id, base.resourceID, f);
    if want.None? {
      ending := Recorded("failed to get auth script configmap: " + ErrorText(At(f, ScriptGet)));
    } else if !Helpers.AppHasChanged(existing, want.value) {
      ending := Finished(existing.id, existing.resourceID);
    } else {
      Convergence.DesiredAppIsDesired(p.w.env, spec, base.id, base.resourceID, f);
      var failed, msg;
      q, sent, failed, msg := SendShape(p, q, want.value, f);
      ending := if failed then Recorded(msg) else Finished(existing.id, existing.resourceID);
    }
  }

  /** An update goes out at most once, built from the Secret. */
  lemma SendShape(before: Pass, p: Pass, desired: Application, f: Faults)
    returns (q: Pass, sent: Option<ServiceProviderRequest>, failed: bool, msg: string)
    requires p.w == before.w && p.sp.declared == before.sp.declared
    requires var spec := p.sp.declared.spec;
             && (WantsScript(spec) ==> spec.authenticationScript.value in p.w.env.configMaps)
             && desired == RoundTrip.Desired(spec, before.sp.status.id, before.sp.status.resourceID,
                                             Convergence.Script(p.w.env, spec))
    ensures var (s, ok) := SendUpdate(p, desired, f);
            && ok == !failed
            && s == if failed then SetPhase(q, Failed, msg, AppStatus, f) else Step(q, Zero)
    ensures q.sp == p.sp && q.w == p.w.(apps := q.w.apps)
    ensures q.log == if sent.Some? then p.log + [AppUpdated(sent.value)] else p.log
    ensures sent.Some? ==> SentFor(before, sent.value)
  {
    var id, rid := before.sp.status.id, before.sp.status.resourceID;
    Convergence.PopulatedIsOutgoing(p.w.secret, p.w.env, p.sp.declared.spec, id, rid, f);
    var sorted := desired.(claims := Helpers.SortClaims(desired.claims));
    var filled := PopulateInbound(p.w.secret, p.sp.declared.spec, sorted, f);
    if filled.None? {
      q, sent, failed, msg := p, None, true, InboundErrorMessage(p.sp.declared.spec, f);
    } else {
      var fault := At(f, AppUpdate);
      sent := Some(Builder.BuildUpdateApplication(filled.value));
      q := p.(w := if fault.Applied() then UpdateApp(p.w, filled.value) else p.w,
              log := p.log + [AppUpdated(sent.value)]);
      failed, msg := fault.Fail?, "update failed: " + ErrorText(fault);
    }
  }

  lemma OneMoreSent(p: Pass, log: seq<Event>, request: ServiceProviderRequest)
    requires SentFor(p, request) && forall e | e in log && e.AppUpdated? :: e in p.log
    ensures forall e | e in log + [AppUpdated(request)] && e.AppUpdated? :: e in p.log || SentFor(p, e.request)
  {
  }

  // ---------------------------------------------------------------- the tail

  /** The tail of a pass: either admin access stops it, or the final patch is attempted. Only the
      directory has changed before that; the flag, once set, is set for a reason. */
  lemma FinishShape(p: Pass, base: Status, resourceID: string, f: Faults)
    returns (q: Pass, failed: bool, msg: string, patched: bool)
    requires p.w.stored.Some?
    ensures var s := Finish(p, base, resourceID, f);
            var st := p.sp.status.(phase := Ready, message := InSyncMessage(resourceID),
              adminCanView := q.sp.status.adminCanView);
            && q.sp == p.sp.(status := st)
            && (p.sp.status.adminCanView ==> q.sp.status.adminCanView && !failed && patched)
            && (q.sp.status.adminCanView ==> p.sp.status.adminCanView || AdminMember(p.w.dir, p.sp.declared.spec.name))
            && q.w == p.w.(dir := q.w.dir) && Grown(p.log, q.log, AppPart)
            && (forall e | e in q.log && e.AppUpdated? :: e in p.log)
            && var r := if failed then SetPhase(q, Failed, msg, AdminStatus, f) else Step(q, Zero);
               (if patched then
                  && r.out == Zero && (!failed ==> q.sp.status.adminCanView)
                  && s == Step(Pass(if At(f, ReadyPatch).Applied() then PatchStatus(r.p.w, base, r.p.sp.status)
                    else r.p.w,
                                    r.p.sp, r.p.log + [StatusSent(ReadyPatch, At(f, ReadyPatch).Fine?)]),
                               if At(f, ReadyPatch).Fine? then Requeue else Error)
                else s == Step(r.p, Requeue))
  {
    var marked := p.(sp := p.sp.(status := p.sp.status.(phase := Ready, message := InSyncMessage(resourceID))));
    q, failed, msg := AdminShape(marked, f);
    patched := AdminAccess(marked, f).out.Zero?;
    if failed {
      SetPhaseShape(q, Failed, msg, AdminStatus, f);
    }
  }

  lemma AdminShape(p: Pass, f: Faults) returns (q: Pass, failed: bool, msg: string)
    ensures var s := AdminAccess(p, f);
            && (s == if failed then SetPhase(q, Failed, msg, AdminStatus, f) else Step(q, s.out))
            && q.sp == p.sp.(status := p.sp.status.(adminCanView := q.sp.status.adminCanView))
            && (p.sp.status.adminCanView ==> q.sp.status.adminCanView && !failed && s.out == Zero)
            && (q.sp.status.adminCanView ==> p.sp.status.adminCanView || AdminMember(p.w.dir, p.sp.declared.spec.name))
            && (!failed ==> s.out == Requeue || (s.out == Zero && q.sp.status.adminCanView))
            && q.w == p.w.(dir := q.w.dir) && Grown(p.log, q.log, AppPart)
            && (forall e | e in q.log && e.AppUpdated? :: e in p.log)
  {
    q, failed, msg := p, false, "";
    var name := p.sp.declared.spec.name;
    if p.sp.status.adminCanView {
    } else if At(f, GroupGet).Fail? || !GroupKnown(p.w.dir, name) {
      failed, msg := true, "admin group lookup failed: " + ErrorText(At(f, GroupGet));
    } else {
      var groupID := p.w.dir.groups[name];
      if ADMIN in MembersOf(p.w.dir, groupID) {
        q := p.(sp := p.sp.(status := p.sp.status.(adminCanView := true)));
      } else {
        var fault := At(f, GroupJoin);
        q := p.(w := if fault.Applied() then JoinAdmin(p.w, groupID) else p.w, log := p.log + [GroupJoined(groupID)]);
        GrowByOne(p.log, GroupJoined(groupID));
        failed, msg := fault.Fail?, "admin group update failed: " + ErrorText(fault);
      }
    }
  }
}
