/** Fault-free passes: each lowers the measure, six are enough, and the end is a fixpoint. */
module Settling {
  import opened Wrappers
  import opened Application
  import opened Server
  import opened World
  import opened Reconcile
  import opened Convergence
  import Builder
  import Helpers
  import Mapper
  import RoundTrip
  import Secrets

  /** The object in memory is exactly the persisted one. */
  predicate Fresh(p: Pass) {
    p.w.stored == Some(p.sp)
  }

  predicate Quiet(log: seq<Event>) {
    forall e | e in log :: !Mutates(e)
  }

  lemma QuietAppend(log: seq<Event>, e: Event)
    requires Quiet(log) && !Mutates(e)
    ensures Quiet(log + [e])
  {
  }

  // ---------------------------------------------------------------- OAuth stage

  /** An unsettled registration is created or corrected and the pass stops there. */
  lemma CleanOAuthStageWorks(p: Pass, a: Answers)
    requires Manageable(p.w) && Fresh(p) && Sane(a) && OAuthRank(p.w.oauth, p.sp.declared) == 1
    ensures var s := OAuthStage(p, NO_FAULTS, a);
            && s.out == Requeue && s.p.sp == p.sp
            && s.p.w == p.w.(oauth := s.p.w.oauth, secret := s.p.w.secret)
            && OAuthRank(s.p.w.oauth, p.sp.declared) == 0
  {
    var d := p.sp.declared;
    if d.spec.name in p.w.oauth {
      var existing := Mapper.MapGetOAuthApplication(p.w.oauth[d.spec.name]);
      RegistrationInSync(p.w.oauth, d, existing.oauthConsumerKey, existing.oauthConsumerSecret);
    } else {
      RegistrationInSync(p.w.oauth, d, a.clientID, a.clientSecret);
    }
  }

  /** A settled registration only has its credentials copied into the Secret. */
  lemma CleanOAuthStageRests(p: Pass, a: Answers)
    requires Manageable(p.w) && Fresh(p) && OAuthRank(p.w.oauth, p.sp.declared) == 0
    ensures var s := OAuthStage(p, NO_FAULTS, a);
            && s.out == Zero && s.p.sp == p.sp && s.p.w == p.w.(secret := s.p.w.secret)
            && OAuthSecretAgrees(s.p.w.secret, p.w.oauth, p.sp.declared)
            && (OAuthActive(p.sp.declared) ==> Secrets.Get(s.p.w.secret, CLIENT_ID) != "")
            && (!OAuthActive(p.sp.declared) ==> s.p.w.secret == p.w.secret)
            && Secrets.Get(s.p.w.secret, SAML_ISSUER) == Secrets.Get(p.w.secret, SAML_ISSUER)
            && (OAuthSecretAgrees(p.w.secret, p.w.oauth, p.sp.declared) ==> s.p.w.secret == p.w.secret)
            && (Quiet(p.log) ==> Quiet(s.p.log))
  {
    var d := p.sp.declared;
    if OAuthActive(d) {
      var existing := Mapper.MapGetOAuthApplication(p.w.oauth[d.spec.name]);
      Secrets.UpsertIdempotent(p.w.secret, OAuthKeys(existing));
      KeysDiffer();
      Secrets.UpsertedValue(p.w.secret, OAuthKeys(existing), CLIENT_ID);
      Secrets.UpsertedValue(p.w.secret, OAuthKeys(existing), SAML_ISSUER);
      if Quiet(p.log) {
        QuietAppend(p.log, OAuthRead(Some(existing.oauthConsumerKey)));
      }
    }
  }

  // ---------------------------------------------------------------- SAML stage

  lemma CleanSamlStageWorks(p: Pass, a: Answers)
    requires Manageable(p.w) && Fresh(p) && SamlRank(p.w.saml, p.w.env, p.sp.declared) == 1
    ensures var s := SamlStage(p, NO_FAULTS, a);
            && s.out == Requeue && s.p.sp == p.sp && s.p.w == p.w.(saml := s.p.w.saml)
            && SamlRank(s.p.w.saml, p.w.env, p.sp.declared) == 0
  {
  }

  lemma SamlUpsertKeepsOAuth(secret: SecretData, existing: SAMLConfig, oauth: map<string, OAuthRecord>, d: Declared)
    requires OAuthSecretAgrees(secret, oauth, d)
    ensures OAuthSecretAgrees(Upserted(secret, SamlKeys(existing)), oauth, d)
  {
    if OAuthActive(d) && d.spec.name in oauth {
      KeysDiffer();
      Secrets.AgreementKept(secret, OAuthKeys(Mapper.MapGetOAuthApplication(oauth[d.spec.name])), SamlKeys(existing));
    }
  }

  lemma SamlUpsertValues(secret: SecretData, existing: SAMLConfig)
    ensures var later := Upserted(secret, SamlKeys(existing));
            && (existing.issuer != "" ==> Secrets.Get(later, SAML_ISSUER) != "")
            && Secrets.Get(later, CLIENT_ID) == Secrets.Get(secret, CLIENT_ID)
  {
    KeysDiffer();
    Secrets.UpsertedValue(secret, SamlKeys(existing), SAML_ISSUER);
    Secrets.UpsertedValue(secret, SamlKeys(existing), CLIENT_ID);
  }

  lemma CleanSamlStageRests(p: Pass, a: Answers)
    requires Manageable(p.w) && Fresh(p) && SamlRank(p.w.saml, p.w.env, p.sp.declared) == 0
    ensures var s := SamlStage(p, NO_FAULTS, a);
            && s.out == Zero && s.p.sp == p.sp && s.p.w == p.w.(secret := s.p.w.secret)
            && (SamlActive(p.sp.declared) ==>
                  && ReadSaml(p.w.saml, Issuer(p.w.env, p.sp.declared)).issuer != ""
                  && s.p.w.secret == Upserted(p.w.secret, SamlKeys(ReadSaml(p.w.saml, Issuer(p.w.env, p.sp.declared)))))
            && (!SamlActive(p.sp.declared) ==> s.p.w.secret == p.w.secret)
            && (Quiet(p.log) ==> Quiet(s.p.log))
  {
    var d := p.sp.declared;
    if SamlActive(d) && Quiet(p.log) {
      QuietAppend(p.log, SamlRead(ReadSaml(p.w.saml, Issuer(p.w.env, d)).issuer));
    }
  }

  // ---------------------------------------------------------------- application stage

  lemma CleanCreate(p: Pass, a: Answers)
    requires Manageable(p.w) && Fresh(p) && p.sp.declared.spec.name !in p.w.apps
    ensures var s := ReconcileCore(p, NO_FAULTS, a);
            && s.out == Requeue && s.p.w.stored.Some?
            && s.p.w == p.w.(apps := s.p.w.apps, dir := s.p.w.dir, stored := s.p.w.stored)
            && s.p.w.stored.value == p.sp.(status := s.p.w.stored.value.status)
            && p.sp.declared.spec.name in s.p.w.apps
  {
  }

  /** Everything but admin access and the status is settled: the tail of a pass does the rest. */
  lemma CleanFinish(p: Pass, base: SP, resourceID: string)
    requires Manageable(p.w) && InMemory(p) && p.w.stored == Some(base)
    requires p.sp == base.(status := base.status.(id := p.sp.status.id, resourceID := resourceID))
    requires GroupKnown(p.w.dir, base.declared.spec.name)
    ensures var s := Finish(p, base.status, resourceID, NO_FAULTS);
            var name := base.declared.spec.name;
            && s.out == Requeue
            && (base.status.adminCanView || AdminMember(p.w.dir, name) ==>
                  && s.p.w == p.w.(stored := Some(base.(status :=
                                Status(p.sp.status.id, resourceID, Ready, true, InSyncMessage(resourceID)))))
                  && s.p.log == p.log + [StatusSent(ReadyPatch, true)])
            && (!base.status.adminCanView && !AdminMember(p.w.dir, name) ==>
                  s.p.w == p.w.(dir := s.p.w.dir) && AdminMember(s.p.w.dir, name))
  {
    if !base.status.adminCanView && !AdminMember(p.w.dir, base.declared.spec.name) {
      JoinEvolves(p.w);
    }
  }

  /** The first half of CleanSync: what the application store is like before the tail runs. */
  function Corrected(p: Pass): World
    requires p.sp.declared.spec.name in p.w.apps
  {
    var spec := p.sp.declared.spec;
    if AppInSync(p.w.apps, p.w.env, spec) then p.w
    else UpdateApp(p.w, OutgoingApp(p.w.secret, p.w.env, spec, p.sp.status.id, p.sp.status.resourceID))
  }

  lemma CorrectedSettles(p: Pass)
    requires Manageable(p.w) && Fresh(p) && p.sp.declared.spec.name in p.w.apps
    ensures var name, v := p.sp.declared.spec.name, Corrected(p);
            && Manageable(v) && v == p.w.(apps := v.apps) && name in v.apps
            && (AppInSync(v.apps, p.w.env, p.sp.declared.spec) <==>
                  AppInSync(p.w.apps, p.w.env, p.sp.declared.spec) || Settles(p.w.secret, p.sp.declared.spec))
            && v.apps[name].id == p.w.apps[name].id && v.apps[name].resourceID == p.w.apps[name].resourceID
  {
    if !AppInSync(p.w.apps, p.w.env, p.sp.declared.spec) {
      UpdateEvolves(p.w, p.sp.status.id, p.sp.status.resourceID);
    }
  }

  /** The application as read, and the pass just after reading it. */
  function Existing(p: Pass): Application
    requires Manageable(p.w) && Fresh(p) && p.sp.declared.spec.name in p.w.apps
  {
    Mapper.MapGetApplication(EchoApplication(p.w.apps[p.sp.declared.spec.name])).value
  }

  function AfterRead(p: Pass, existing: Application): Pass {
    p.(sp := p.sp.(status := p.sp.status.(id := existing.id, resourceID := existing.resourceID)),
       log := p.log + [AppRead(Some((existing.id, existing.resourceID)))])
  }

  lemma CleanVerdict(p: Pass)
    requires Manageable(p.w) && Fresh(p) && p.sp.declared.spec.name in p.w.apps
    ensures var spec, id, rid := p.sp.declared.spec, p.sp.status.id, p.sp.status.resourceID;
            var want := RoundTrip.Desired(spec, id, rid, Script(p.w.env, spec));
            && DesiredApp(p.w.env, spec, id, rid, NO_FAULTS) == Some(want)
            && (Helpers.AppHasChanged(Existing(p), want) <==> !AppInSync(p.w.apps, p.w.env, spec))
  {
    var spec, id, rid := p.sp.declared.spec, p.sp.status.id, p.sp.status.resourceID;
    DesiredAppIsDesired(p.w.env, spec, id, rid, NO_FAULTS);
    VerdictIgnoresIdentity(Existing(p), spec, id, rid, Script(p.w.env, spec));
  }

  lemma CleanSend(p: Pass, q: Pass, id: int, resourceID: string)
    requires q.w == p.w && q.sp.declared == p.sp.declared
    ensures var spec := p.sp.declared.spec;
            var (s, ok) := SendUpdate(q, RoundTrip.Desired(spec, id, resourceID, Script(p.w.env, spec)), NO_FAULTS);
            && ok && s.p.sp == q.sp && (exists e | e in s.p.log :: e.AppUpdated?)
              && s.p.w == UpdateApp(p.w, OutgoingApp(p.w.secret, p.w.env, spec, id, resourceID))
  {
    var spec := p.sp.declared.spec;
    PopulatedIsOutgoing(p.w.secret, p.w.env, spec, id, resourceID, NO_FAULTS);
    var request := Builder.BuildUpdateApplication(OutgoingApp(p.w.secret, p.w.env, spec, id, resourceID));
    assert AppUpdated(request) in q.log + [AppUpdated(request)];
  }

  lemma CleanSyncCorrects(p: Pass, a: Answers) returns (q: Pass)
    requires Manageable(p.w) && Fresh(p) && p.sp.declared.spec.name in p.w.apps
    ensures var s := p.w.apps[p.sp.declared.spec.name];
            && q.w == Corrected(p)
            && q.sp == p.sp.(status := p.sp.status.(id := s.id, resourceID := s.resourceID))
            && ReconcileCore(p, NO_FAULTS, a) == Finish(q, p.sp.status, s.resourceID, NO_FAULTS)
            && (AppInSync(p.w.apps, p.w.env, p.sp.declared.spec) && Quiet(p.log) ==> Quiet(q.log))
            && (!AppInSync(p.w.apps, p.w.env, p.sp.declared.spec) ==> exists e | e in q.log :: e.AppUpdated?)
  {
    var existing := Existing(p);
    q := AfterRead(p, existing);
    CleanVerdict(p);
    assert ReconcileCore(p, NO_FAULTS, a) == SyncApplication(p, existing, NO_FAULTS);
    if !AppInSync(p.w.apps, p.w.env, p.sp.declared.spec) {
      var id, rid := p.sp.status.id, p.sp.status.resourceID;
      CleanSend(p, q, id, rid);
      var spec := p.sp.declared.spec;
      q := SendUpdate(q, RoundTrip.Desired(spec, id, rid, Script(p.w.env, spec)), NO_FAULTS).0.p;
    } else if Quiet(p.log) {
      QuietAppend(p.log, AppRead(Some((existing.id, existing.resourceID))));
    }
  }

  /** With OAuth, SAML and Secret settled and the application present, one pass settles everything,
      unless it first has to let the administrator in. */
  lemma CleanSync(p: Pass, a: Answers)
    requires Manageable(p.w) && Fresh(p) && p.sp.declared.spec.name in p.w.apps
    ensures var s := ReconcileCore(p, NO_FAULTS, a);
            var name := p.sp.declared.spec.name;
            && s.out == Requeue && s.p.w.stored.Some?
            && s.p.w == p.w.(apps := s.p.w.apps, dir := s.p.w.dir, stored := s.p.w.stored)
            && s.p.w.stored.value == p.sp.(status := s.p.w.stored.value.status)
            && name in s.p.w.apps && s.p.w.apps == Corrected(p).apps
            && (p.sp.status.adminCanView || AdminMember(p.w.dir, name) ==>
                  StatusSettled(s.p.w.stored.value.status, s.p.w.apps, name))
            && (!p.sp.status.adminCanView && !AdminMember(p.w.dir, name) ==> AdminMember(s.p.w.dir, name))
  {
    CorrectedSettles(p);
    var q := CleanSyncCorrects(p, a);
    CleanFinish(q, p.sp, p.w.apps[p.sp.declared.spec.name].resourceID);
  }

  /** Nothing left to do: nothing is done. */
  lemma CleanSyncRests(p: Pass, a: Answers)
    requires Manageable(p.w) && Fresh(p) && Quiet(p.log)
    requires AppInSync(p.w.apps, p.w.env, p.sp.declared.spec)
    requires StatusSettled(p.sp.status, p.w.apps, p.sp.declared.spec.name)
    ensures var s := ReconcileCore(p, NO_FAULTS, a);
            s.out == Requeue && s.p.w == p.w && Quiet(s.p.log)
  {
    var q := CleanSyncCorrects(p, a);
    CleanFinish(q, p.sp, p.w.apps[p.sp.declared.spec.name].resourceID);
    QuietAppend(q.log, StatusSent(ReadyPatch, true));
  }

  // ---------------------------------------------------------------- the whole pass

  /** The keys a fault-free pass will find: those of the kinds it follows, and those already there. */
  predicate InboundAvailable(secret: SecretData, d: Declared) {
    && (d.spec.oauth2.Some? ==> OAuthActive(d) || Secrets.Get(secret, CLIENT_ID) != "")
    && (d.spec.saml.Some? ==> SamlActive(d) || Secrets.Get(secret, SAML_ISSUER) != "")
  }

  lemma KeysComeIn(before: SecretData, mid: SecretData, after: SecretData, d: Declared)
    requires if OAuthActive(d) then Secrets.Get(mid, CLIENT_ID) != "" else mid == before
    requires Secrets.Get(mid, SAML_ISSUER) == Secrets.Get(before, SAML_ISSUER)
    requires if SamlActive(d) then Secrets.Get(after, SAML_ISSUER) != "" else after == mid
    requires Secrets.Get(after, CLIENT_ID) == Secrets.Get(mid, CLIENT_ID)
    ensures KeysAtHand(after, d.spec) <==> InboundAvailable(before, d)
  {
  }

  /** Past the finalizer, with OAuth and SAML settled, the application stage meets a settled Secret. */
  lemma CleanPrelude(p: Pass, a: Answers) returns (q: Pass)
    requires Manageable(p.w) && Fresh(p) && Sane(a)
    requires OAuthRank(p.w.oauth, p.sp.declared) == 0 && SamlRank(p.w.saml, p.w.env, p.sp.declared) == 0
    ensures ReconcileApplication(p, NO_FAULTS, a) == ReconcileCore(q, NO_FAULTS, a)
    ensures q.sp == p.sp && q.w == p.w.(secret := q.w.secret) && Manageable(q.w) && Fresh(q)
    ensures OAuthSecretAgrees(q.w.secret, p.w.oauth, p.sp.declared)
    ensures SamlSecretAgrees(q.w.secret, p.w.saml, p.w.env, p.sp.declared)
    ensures KeysAtHand(q.w.secret, p.sp.declared.spec) <==> InboundAvailable(p.w.secret, p.sp.declared)
    ensures
      (&& OAuthSecretAgrees(p.w.secret, p.w.oauth, p.sp.declared)
       && SamlSecretAgrees(p.w.secret, p.w.saml, p.w.env, p.sp.declared)) ==> q.w == p.w
    ensures Quiet(p.log) ==> Quiet(q.log)
  {
    var d := p.sp.declared;
    CleanOAuthStageRests(p, a);
    OAuthStageEvolves(p, NO_FAULTS, a);
    var p1 := OAuthStage(p, NO_FAULTS, a).p;
    CleanSamlStageRests(p1, a);
    SamlStageEvolves(p1, NO_FAULTS, a);
    q := SamlStage(p1, NO_FAULTS, a).p;
    if SamlActive(d) {
      var existing := ReadSaml(p1.w.saml, Issuer(p1.w.env, d));
      SamlUpsertKeepsOAuth(p1.w.secret, existing, p1.w.oauth, d);
      Secrets.UpsertIdempotent(p1.w.secret, SamlKeys(existing));
      SamlUpsertValues(p1.w.secret, existing);
    }
    KeysComeIn(p.w.secret, p1.w.secret, q.w.secret, d);
  }

  /** What a fault-free pass over a settleable world amounts to. */
  lemma CleanRun(w: World, a: Answers)
    requires Manageable(w)
    ensures var p := Pass(w, w.stored.value, []);
            && (SP_FINALIZER !in p.sp.finalizers ==>
                  Run(w, NO_FAULTS, a).w == PutFinalizers(w, p.sp.finalizers + {SP_FINALIZER}))
            && (SP_FINALIZER in p.sp.finalizers ==>
                  var s := ReconcileApplication(p, NO_FAULTS, a);
                  Run(w, NO_FAULTS, a) == Ran(s.p.w, s.p.log, s.out))
  {
  }

  /** Any one gain, with nothing lost, lowers the measure. */
  lemma GainLowersRank(w: World, v: World)
    requires Evolves(w, v) && !Arrived(w)
    requires var d := w.stored.value.declared;
             || (SP_FINALIZER !in w.stored.value.finalizers && SP_FINALIZER in v.stored.value.finalizers)
             || OAuthRank(v.oauth, d) < OAuthRank(w.oauth, d)
             || SamlRank(v.saml, w.env, d) < SamlRank(w.saml, w.env, d)
             || (d.spec.name !in w.apps && d.spec.name in v.apps)
             || (!w.stored.value.status.adminCanView && !AdminMember(w.dir, d.spec.name)
               && AdminMember(v.dir, d.spec.name))
             || Arrived(v)
    ensures Rank(v) < Rank(w)
  {
  }

  /** With everything else settled and the administrator in, the application stage arrives. */
  lemma CleanSyncArrives(p: Pass, a: Answers)
    requires Manageable(p.w) && Fresh(p) && p.sp.declared.spec.name in p.w.apps && SP_FINALIZER in p.sp.finalizers
    requires OAuthRank(p.w.oauth, p.sp.declared) == 0 && SamlRank(p.w.saml, p.w.env, p.sp.declared) == 0
    requires OAuthSecretAgrees(p.w.secret, p.w.oauth, p.sp.declared)
    requires SamlSecretAgrees(p.w.secret, p.w.saml, p.w.env, p.sp.declared)
    requires p.sp.status.adminCanView || AdminMember(p.w.dir, p.sp.declared.spec.name)
    ensures Arrived(ReconcileCore(p, NO_FAULTS, a).p.w)
  {
    CorrectedSettles(p);
    CleanSync(p, a);
  }

  /** The three kinds of fault-free pass that reach the application stage. */
  lemma CleanCoreGains(w: World, a: Answers)
    requires Manageable(w) && Sane(a) && !Arrived(w) && SP_FINALIZER in w.stored.value.finalizers
    requires OAuthRank(w.oauth, w.stored.value.declared) == 0 && SamlRank(w.saml, w.env, w.stored.value.declared) == 0
    ensures var v, d := Run(w, NO_FAULTS, a).w, w.stored.value.declared;
            && v.stored.Some?
            && (|| (d.spec.name !in w.apps && d.spec.name in v.apps)
                || (!w.stored.value.status.adminCanView && !AdminMember(w.dir, d.spec.name)
                  && AdminMember(v.dir, d.spec.name))
                || Arrived(v))
  {
    CleanRun(w, a);
    var q := CleanPrelude(Pass(w, w.stored.value, []), a);
    if w.stored.value.declared.spec.name !in w.apps {
      CleanCreate(q, a);
    } else {
      CleanSync(q, a);
      if w.stored.value.status.adminCanView || AdminMember(w.dir, w.stored.value.declared.spec.name) {
        CleanSyncArrives(q, a);
      }
    }
  }

  /** With a registration missing or drifted, the pass repairs the first such and stops. */
  lemma CleanStagesGain(p: Pass, a: Answers)
    requires Manageable(p.w) && Fresh(p) && Sane(a)
    requires OAuthRank(p.w.oauth, p.sp.declared) == 1 || SamlRank(p.w.saml, p.w.env, p.sp.declared) == 1
    ensures var v := ReconcileApplication(p, NO_FAULTS, a).p.w;
            || OAuthRank(v.oauth, p.sp.declared) < OAuthRank(p.w.oauth, p.sp.declared)
            || SamlRank(v.saml, p.w.env, p.sp.declared) < SamlRank(p.w.saml, p.w.env, p.sp.declared)
  {
    if OAuthRank(p.w.oauth, p.sp.declared) == 1 {
      CleanOAuthStageWorks(p, a);
    } else {
      CleanOAuthStageRests(p, a);
      OAuthStageEvolves(p, NO_FAULTS, a);
      CleanSamlStageWorks(OAuthStage(p, NO_FAULTS, a).p, a);
    }
  }

  /** Every fault-free pass over a world that is not settled strictly lowers the measure. */
  lemma CleanPassProgresses(w: World, a: Answers)
    requires Manageable(w) && Sane(a) && !Arrived(w)
    ensures var v := Run(w, NO_FAULTS, a).w;
            Manageable(v) && Rank(v) < Rank(w)
  {
    PassEvolves(w, NO_FAULTS, a);
    CleanRun(w, a);
    var p := Pass(w, w.stored.value, []);
    var d := p.sp.declared;
    if SP_FINALIZER in p.sp.finalizers {
      if OAuthRank(w.oauth, d) == 1 || SamlRank(w.saml, w.env, d) == 1 {
        CleanStagesGain(p, a);
      } else {
        CleanCoreGains(w, a);
      }
    }
    GainLowersRank(w, Run(w, NO_FAULTS, a).w);
  }

  /** Once arrived with the application in sync, the world is a fixpoint: nothing is created, updated,
      deleted or joined, and the persisted object, the Secret and every WSO2 store stay exactly as they are. */
  lemma SettledIsFixpoint(w: World, a: Answers)
    requires Manageable(w) && Arrived(w) && Sane(a) && AppInSync(w.apps, w.env, w.stored.value.declared.spec)
    ensures var r := Run(w, NO_FAULTS, a);
            r.w == w && Quiet(r.log) && r.out == Requeue
  {
    CleanRun(w, a);
    var q := CleanPrelude(Pass(w, w.stored.value, []), a);
    CleanSyncRests(q, a);
  }

  lemma FinishKeepsLog(p: Pass, base: Status, resourceID: string, f: Faults)
    ensures p.log <= Finish(p, base, resourceID, f).p.log
  {
  }

  lemma UnsettledNeverInSync(w: World)
    requires w.stored.Some? && !RoundTrip.ApplicationSettles(w.stored.value.declared.spec)
    ensures !AppInSync(w.apps, w.env, w.stored.value.declared.spec)
  {
    var spec := w.stored.value.declared.spec;
    if AppInSync(w.apps, w.env, spec) {
      RoundTrip.UnchangedMeansSettles(EchoApplication(w.apps[spec.name]), spec, 0, "", Script(w.env, spec));
    }
  }

  lemma OutOfSyncIsSent(p: Pass, a: Answers)
    requires Manageable(p.w) && Fresh(p) && p.sp.declared.spec.name in p.w.apps
    requires !AppInSync(p.w.apps, p.w.env, p.sp.declared.spec)
    ensures exists e | e in ReconcileCore(p, NO_FAULTS, a).p.log :: e.AppUpdated?
  {
    var c := CleanSyncCorrects(p, a);
    var e :| e in c.log && e.AppUpdated?;
    var resourceID := p.w.apps[p.sp.declared.spec.name].resourceID;
    FinishKeepsLog(c, p.sp.status, resourceID, NO_FAULTS);
    var i :| 0 <= i < |c.log| && c.log[i] == e;
    assert Finish(c, p.sp.status, resourceID, NO_FAULTS).p.log[i] == e;
  }

  /** Once arrived with the application out of sync, the status stays Ready but the pass sends the
      application again, to no avail. */
  lemma OutOfSyncIsResent(w: World, a: Answers)
    requires Manageable(w) && Arrived(w) && Sane(a) && !AppInSync(w.apps, w.env, w.stored.value.declared.spec)
    ensures var r, d := Run(w, NO_FAULTS, a), w.stored.value.declared;
            && Manageable(r.w) && Arrived(r.w) && r.out == Requeue
            && r.w.stored.value.declared == d && r.w.env == w.env
            && r.w == w.(apps := r.w.apps, dir := r.w.dir, stored := r.w.stored)
            && !AppInSync(r.w.apps, w.env, d.spec)
            && exists e | e in r.log :: e.AppUpdated?
  {
    PassEvolves(w, NO_FAULTS, a);
    CleanRun(w, a);
    var q := CleanPrelude(Pass(w, w.stored.value, []), a);
    OutOfSyncIsSent(q, a);
    CorrectedSettles(q);
    CleanSync(q, a);
  }

  lemma ArrivedStays(w: World, a: Answers)
    requires Manageable(w) && Arrived(w) && Sane(a)
    ensures var v := Run(w, NO_FAULTS, a).w;
            Manageable(v) && Arrived(v) && v.stored.value.declared == w.stored.value.declared
  {
    if AppInSync(w.apps, w.env, w.stored.value.declared.spec) {
      SettledIsFixpoint(w, a);
    } else {
      OutOfSyncIsResent(w, a);
    }
  }

  // ---------------------------------------------------------------- many passes

  predicate AllSane(moves: seq<(Faults, Answers)>) {
    forall m | m in moves :: Sane(m.1)
  }

  predicate AllClean(moves: seq<(Faults, Answers)>) {
    forall m | m in moves :: m.0 == NO_FAULTS
  }

  /** Any number of passes, failing in any way, keep the start conditions and never move WSO2 away
      from the desired state. */
  lemma {:induction false} FaultyPassesKeep(w: World, moves: seq<(Faults, Answers)>)
    requires Manageable(w) && AllSane(moves)
    ensures Manageable(Passes(w, moves))
    ensures RemoteRank(Passes(w, moves)) <= RemoteRank(w)
  {
    if moves != [] {
      var init, last := moves[..|moves| - 1], moves[|moves| - 1];
      assert last in moves && forall m | m in init :: m in moves;
      FaultyPassesKeep(w, init);
      RemoteRankNeverRises(Passes(w, init), last.0, last.1);
    }
  }

  /** n clean passes lower the measure by n, or to zero. */
  lemma {:induction false} CleanPassesLower(w: World, moves: seq<(Faults, Answers)>)
    requires Manageable(w) && AllSane(moves) && AllClean(moves)
    ensures var v := Passes(w, moves);
            && Manageable(v) && v.stored.value.declared == w.stored.value.declared
            && (Arrived(v) || Rank(v) + |moves| <= Rank(w))
  {
    if moves != [] {
      var init, last := moves[..|moves| - 1], moves[|moves| - 1];
      assert last in moves && forall m | m in init :: m in moves;
      CleanPassesLower(w, init);
      var v := Passes(w, init);
      if Arrived(v) {
        ArrivedStays(v, last.1);
      } else {
        PassEvolves(v, NO_FAULTS, last.1);
        CleanPassProgresses(v, last.1);
      }
    }
  }

  /** Convergence: however many passes failed before and however they failed, six clean passes in a row
      persist Ready with the remote identifiers, and every later clean pass keeps that. */
  lemma ConvergesWithinSix(w: World, faulty: seq<(Faults, Answers)>, clean: seq<(Faults, Answers)>)
    requires Manageable(w) && AllSane(faulty) && AllSane(clean) && AllClean(clean) && |clean| >= 6
    ensures var v := Passes(Passes(w, faulty), clean);
            Manageable(v) && Arrived(v) && v.stored.value.status.phase == Ready
  {
    FaultyPassesKeep(w, faulty);
    var start := Passes(w, faulty);
    RankAtMostSix(start);
    CleanPassesLower(start, clean);
    RankAtMostSix(Passes(start, clean));
  }

  // ---------------------------------------------------------------- clean passes in between

  /** A clean pass closes the distance by one at least; at distance zero it arrives. */
  lemma CleanPassCloses(w: World, a: Answers)
    requires Manageable(w) && Sane(a)
    ensures var v := Run(w, NO_FAULTS, a).w;
            v.stored.Some? && if Distance(w) == 0 then Arrived(v) else Distance(v) < Distance(w)
  {
    if Arrived(w) {
      ArrivedStays(w, a);
    } else {
      CleanPassProgresses(w, a);
    }
  }

  /** Whatever fails, the distance does not grow. */
  lemma DistanceNeverRises(w: World, f: Faults, a: Answers)
    requires Manageable(w) && Sane(a)
    ensures var v := Run(w, f, a).w; Manageable(v) && Distance(v) <= Distance(w)
  {
    PassEvolves(w, f, a);
  }

  function CleanCount(moves: seq<(Faults, Answers)>): nat {
    if moves == [] then 0
    else CleanCount(moves[..|moves| - 1]) + if moves[|moves| - 1].0 == NO_FAULTS then 1 else 0
  }

  lemma {:induction false} InterleavedCloses(w: World, moves: seq<(Faults, Answers)>)
    requires Manageable(w) && AllSane(moves)
    ensures var v := Passes(w, moves);
            && Manageable(v) && (Distance(v) == 0 || Distance(v) + CleanCount(moves) <= Distance(w))
  {
    if moves != [] {
      var init, last := moves[..|moves| - 1], moves[|moves| - 1];
      assert last in moves && forall m | m in init :: m in moves;
      InterleavedCloses(w, init);
      DistanceNeverRises(Passes(w, init), last.0, last.1);
      if last.0 == NO_FAULTS {
        CleanPassCloses(Passes(w, init), last.1);
      }
    }
  }

  /** Convergence without any run of luck: clean passes may come one at a time between any failing ones.
      More of them than the distance of the start state, hence six, suffice, if the last pass is clean. */
  lemma ConvergesInterleaved(w: World, moves: seq<(Faults, Answers)>)
    requires Manageable(w) && AllSane(moves) && moves != [] && moves[|moves| - 1].0 == NO_FAULTS
    requires CleanCount(moves) > Distance(w) || CleanCount(moves) >= 6
    ensures Manageable(Passes(w, moves)) && Arrived(Passes(w, moves))
  {
    var init, last := moves[..|moves| - 1], moves[|moves| - 1];
    assert last in moves && forall m | m in init :: m in moves;
    InterleavedCloses(w, init);
    DistanceNeverRises(Passes(w, init), NO_FAULTS, last.1);
    CleanPassCloses(Passes(w, init), last.1);
  }

  // ---------------------------------------------------------------- after arrival

  /** From arrival on, for any number of clean passes: an application in sync is left entirely alone,
      one out of sync never gets in sync. */
  lemma {:induction false} SettledForEver(w: World, moves: seq<(Faults, Answers)>)
    requires Manageable(w) && Arrived(w) && AllSane(moves) && AllClean(moves)
    ensures var v, spec := Passes(w, moves), w.stored.value.declared.spec;
            && Manageable(v) && Arrived(v) && v.env == w.env && v.stored.value.declared == w.stored.value.declared
            && (AppInSync(w.apps, w.env, spec) ==> v == w)
            && (!AppInSync(w.apps, w.env, spec) ==> !AppInSync(v.apps, w.env, spec))
  {
    if moves != [] {
      var init, last := moves[..|moves| - 1], moves[|moves| - 1];
      assert last in moves && forall m | m in init :: m in moves;
      SettledForEver(w, init);
      if AppInSync(w.apps, w.env, w.stored.value.declared.spec) {
        SettledIsFixpoint(w, last.1);
      } else {
        OutOfSyncIsResent(Passes(w, init), last.1);
      }
    }
  }

  /** After arrival the next clean pass sends nothing that changes WSO2 if and only if the application is in sync. */
  lemma QuietExactlyWhenInSync(w: World, a: Answers)
    requires Manageable(w) && Arrived(w) && Sane(a)
    ensures Quiet(Run(w, NO_FAULTS, a).log) <==> AppInSync(w.apps, w.env, w.stored.value.declared.spec)
  {
    if AppInSync(w.apps, w.env, w.stored.value.declared.spec) {
      SettledIsFixpoint(w, a);
    } else {
      OutOfSyncIsResent(w, a);
    }
  }
}
