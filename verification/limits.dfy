/** Where the loop falls short, exactly: specs it can never finish, corrections that destroy, a rotated
    key it does not see, and lost status writes that let an old or blank key out. */
module Limits {
  import opened Wrappers
  import opened Application
  import opened Server
  import opened World
  import opened Reconcile
  import opened Convergence
  import opened Settling
  import Builder
  import Helpers
  import Mapper
  import Quietness
  import RoundTrip
  import Safety
  import Secrets
  import Stages

  // ---------------------------------------------------------------- OAuth specs that never settle

  /** The followed spec neither survives the round trip nor happens to be registered already. */
  predicate NeverAgrees(oauth: map<string, OAuthRecord>, d: Declared) {
    OAuthActive(d) && !RoundTrip.OAuthSettles(d.spec.oauth2.value) && !OAuthInSync(oauth, d)
  }

  /** What the operator registers for such a spec, under any credentials, disagrees again. */
  lemma WrittenDisagrees(oauth: map<string, OAuthRecord>, d: Declared, clientID: string, clientSecret: string)
    requires OAuthActive(d) && !RoundTrip.OAuthSettles(d.spec.oauth2.value)
    ensures var desired := Helpers.OAuth2FromSpec(d.spec.oauth2.value).(
                             oauthConsumerKey := clientID, oauthConsumerSecret := clientSecret);
            && NeverAgrees(oauth[d.spec.name := Builder.BuildOAuthApplication(d.spec.name, desired)], d)
            && RegisterOAuth(Builder.BuildOAuthApplication(d.spec.name, Helpers.OAuth2FromSpec(d.spec.oauth2.value)),
                             clientID, clientSecret)
            == Builder.BuildOAuthApplication(d.spec.name, desired)
  {
    RoundTrip.OAuthRoundTrip(d.spec.name, d.spec.oauth2.value, clientID, clientSecret);
  }

  lemma CorrectionDisagrees(p: Pass, existing: OAuth2Config, f: Faults)
    requires NeverAgrees(p.w.oauth, p.sp.declared)
    ensures NeverAgrees(CorrectOAuth2(p, existing, f).p.w.oauth, p.sp.declared)
  {
    WrittenDisagrees(p.w.oauth, p.sp.declared, existing.oauthConsumerKey, existing.oauthConsumerSecret);
  }

  lemma CreationDisagrees(p: Pass, f: Faults, a: Answers)
    requires NeverAgrees(p.w.oauth, p.sp.declared) && p.sp.declared.spec.name !in p.w.oauth
    ensures NeverAgrees(ReconcileOAuth2(p, f, a).p.w.oauth, p.sp.declared)
  {
    WrittenDisagrees(p.w.oauth, p.sp.declared, a.clientID, a.clientSecret);
  }

  lemma StageDisagrees(p: Pass, f: Faults, a: Answers)
    requires NeverAgrees(p.w.oauth, p.sp.declared)
    ensures NeverAgrees(OAuthStage(p, f, a).p.w.oauth, p.sp.declared)
  {
    if p.sp.declared.spec.name in p.w.oauth {
      var existing := Mapper.MapGetOAuthApplication(p.w.oauth[p.sp.declared.spec.name]);
      CorrectionDisagrees(p.(log := p.log + [OAuthRead(Some(existing.oauthConsumerKey))]), existing, f);
    } else {
      CreationDisagrees(p, f, a);
    }
  }

  /** OAuth registrations only ever change in the OAuth stage. */
  lemma OnlyOAuthStageRegisters(w: World, f: Faults, a: Answers)
    requires Safety.Reaches(w, f)
    ensures Run(w, f, a).w.oauth == OAuthStage(Safety.Start(w), f, a).p.w.oauth
  {
    Safety.Reached(w, f, a);
    var s := Stages.OAuthTracks(Safety.Start(w), f, a);
    Stages.ConfinedTwice(s.p.log, s.p.log);
    if s.out.Zero? {
      LaterStagesRegisterNothing(s.p, f, a);
    }
  }

  lemma LaterStagesRegisterNothing(p: Pass, f: Faults, a: Answers)
    requires p.w.stored.Some? && forall e | e in p.log :: !e.SamlRead?
    ensures var s := SamlStage(p, f, a);
            (if s.out.Zero? then ReconcileCore(s.p, f, a) else s).p.w.oauth == p.w.oauth
  {
    var t := Stages.SamlTracks(p, f, a);
    if t.out.Zero? {
      Stages.CoreKeepsObject(t.p, f, a);
    }
  }

  /** Whatever fails, such a registration stays in disagreement. */
  lemma PassDisagrees(w: World, f: Faults, a: Answers)
    requires w.stored.Some? && NeverAgrees(w.oauth, w.stored.value.declared)
    ensures NeverAgrees(Run(w, f, a).w.oauth, w.stored.value.declared)
  {
    if Safety.Reaches(w, f) {
      OnlyOAuthStageRegisters(w, f, a);
      StageDisagrees(Safety.Start(w), f, a);
    } else {
      Safety.StopsShort(w, f, a);
    }
  }

  lemma {:induction false} NeverArrives(w: World, moves: seq<(Faults, Answers)>)
    requires w.stored.Some? && NeverAgrees(w.oauth, w.stored.value.declared)
    ensures var v := Passes(w, moves);
            v.stored.Some? ==>
              v.stored.value.declared == w.stored.value.declared && NeverAgrees(v.oauth, v.stored.value.declared)
                && !Arrived(v)
  {
    if moves != [] {
      var init, last := moves[..|moves| - 1], moves[|moves| - 1];
      NeverArrives(w, init);
      var v := Passes(w, init);
      Safety.PassKeepsDeclared(v, last.0, last.1);
      if v.stored.Some? {
        PassDisagrees(v, last.0, last.1);
      }
    }
  }

  /** Convergence is exact in the OAuth spec: with six or more clean passes among any others, the last
      one clean, the world arrives if and only if the followed OAuth spec, if any, survives its round
      trip or happens to be registered just so already. */
  lemma ConvergesExactly(w: World, moves: seq<(Faults, Answers)>)
    requires Operable(w) && AllSane(moves) && moves != [] && moves[|moves| - 1].0 == NO_FAULTS && CleanCount(moves) >= 6
    ensures Arrived(Passes(w, moves)) <==> OAuthManageable(w.oauth, w.stored.value.declared)
  {
    if OAuthManageable(w.oauth, w.stored.value.declared) {
      ConvergesInterleaved(w, moves);
    } else {
      NeverArrives(w, moves);
    }
  }

  predicate Stuck(w: World) {
    Safety.Reaches(w, NO_FAULTS) && NeverAgrees(w.oauth, w.stored.value.declared)
  }

  /** A stuck object: the pass rewrites the OAuth registration and goes no further. */
  lemma StuckStage(p: Pass, a: Answers)
    requires NeverAgrees(p.w.oauth, p.sp.declared) && p.log == []
    ensures var s, name := OAuthStage(p, NO_FAULTS, a), p.sp.declared.spec.name;
            && s.out == Requeue && s.p.w == p.w.(oauth := s.p.w.oauth, secret := s.p.w.secret)
            && |s.p.log| == 2 && (s.p.log[1] == OAuthCreated(name) || s.p.log[1] == OAuthUpdated(name))
  {
  }

  lemma StuckPass(w: World, a: Answers)
    requires Stuck(w)
    ensures var r, name := Run(w, NO_FAULTS, a), w.stored.value.declared.spec.name;
            && Stuck(r.w) && r.out == Requeue && r.w == w.(oauth := r.w.oauth, secret := r.w.secret)
            && (OAuthCreated(name) in r.log || OAuthUpdated(name) in r.log)
  {
    Safety.Reached(w, NO_FAULTS, a);
    StuckStage(Safety.Start(w), a);
    PassDisagrees(w, NO_FAULTS, a);
  }

  /** For any number of fault-free passes the object and its application stay exactly as they were. */
  lemma {:induction false} StuckForEver(w: World, moves: seq<(Faults, Answers)>)
    requires Stuck(w) && AllClean(moves)
    ensures var v := Passes(w, moves);
            Stuck(v) && v.stored == w.stored && v.apps == w.apps && v.saml == w.saml && v.dir == w.dir
  {
    if moves != [] {
      var init, last := moves[..|moves| - 1], moves[|moves| - 1];
      assert last in moves && forall m | m in init :: m in moves;
      StuckForEver(w, init);
      StuckPass(Passes(w, init), last.1);
    }
  }

  // ---------------------------------------------------------------- SAML corrections

  /** The registration under the issuer exists and disagrees with the metadata. */
  predicate Drifted(w: World, d: Declared) {
    && SamlActive(d) && Usable(w.env, d.spec.saml.value.metadataURL)
    && var existing := ReadSaml(w.saml, Issuer(w.env, d));
       existing.issuer != "" && Helpers.SamlSPHasChanged(existing, DesiredSaml(w.env, d.spec.saml.value))
  }

  /** A correction deletes the application that happens to be named like the issuer, and removes the
      drift exactly when adding an existing issuer replaces it. */
  lemma DriftCorrection(p: Pass, a: Answers)
    requires Drifted(p.w, p.sp.declared)
    ensures var s, issuer := SamlStage(p, NO_FAULTS, a), Issuer(p.w.env, p.sp.declared);
            && s.out == Zero && s.p.sp == p.sp
            && s.p.log == p.log + [SamlRead(ReadSaml(p.w.saml, issuer).issuer)] + [AppDeleted(issuer)] +
              [SamlAdded(issuer)]
            && s.p.w == p.w.(apps := p.w.apps - {issuer}, saml := s.p.w.saml, secret := s.p.w.secret)
            && (Drifted(s.p.w, p.sp.declared) <==> !a.samlAddOverwrites)
            && (!a.samlAddOverwrites ==> s.p.w.saml == p.w.saml)
  {
  }

  /** Without faults the OAuth stage lets the pass go on exactly when there is nothing for it to repair. */
  lemma OAuthStageCleanly(p: Pass, a: Answers)
    ensures var s := OAuthStage(p, NO_FAULTS, a);
            && (s.out == Zero <==> OAuthRank(p.w.oauth, p.sp.declared) == 0)
            && s.p.sp == p.sp && s.p.w == p.w.(oauth := s.p.w.oauth, secret := s.p.w.secret)
  {
  }

  /** Without drift the SAML stage deletes nothing. */
  lemma NoDriftNoDeletion(p: Pass, a: Answers)
    requires !Drifted(p.w, p.sp.declared)
    ensures forall e | e in SamlStage(p, NO_FAULTS, a).p.log && e.AppDeleted? :: e in p.log
  {
  }

  /** What the SAML stage deletes. */
  lemma SamlStageDeletes(p: Pass, a: Answers, n: string)
    requires forall e | e in p.log :: !e.AppDeleted?
    ensures AppDeleted(n) in SamlStage(p, NO_FAULTS, a).p.log <==>
            Drifted(p.w, p.sp.declared) && n == Issuer(p.w.env, p.sp.declared)
  {
    if Drifted(p.w, p.sp.declared) {
      DriftCorrection(p, a);
      assert SamlStage(p, NO_FAULTS, a).p.log[|p.log| + 1] == AppDeleted(Issuer(p.w.env, p.sp.declared));
    } else {
      NoDriftNoDeletion(p, a);
    }
  }

  lemma CoreDeletesNothing(p: Pass, f: Faults, a: Answers, n: string)
    requires p.w.stored.Some?
    ensures AppDeleted(n) in ReconcileCore(p, f, a).p.log <==> AppDeleted(n) in p.log
  {
    Stages.CoreGrows(p, f, a);
  }

  lemma OAuthStageDeletesNothing(p: Pass, f: Faults, a: Answers)
    requires p.w.stored.Some? && p.log == []
    ensures OAuthStage(p, f, a).p.w.stored.Some?
    ensures forall e | e in OAuthStage(p, f, a).p.log :: !e.AppDeleted? && !e.SamlRead?
  {
    var s := Stages.OAuthTracks(p, f, a);
    Stages.ConfinedTwice(s.p.log, s.p.log);
  }

  /** The same from the SAML stage on. */
  lemma ApplicationDeletes(p: Pass, a: Answers, n: string)
    requires p.w.stored.Some? && forall e | e in p.log :: !e.AppDeleted? && !e.SamlRead?
    ensures var s := SamlStage(p, NO_FAULTS, a);
            var log := if s.out.Zero? then ReconcileCore(s.p, NO_FAULTS, a).p.log else s.p.log;
            AppDeleted(n) in log <==> Drifted(p.w, p.sp.declared) && n == Issuer(p.w.env, p.sp.declared)
  {
    SamlStageDeletes(p, a, n);
    var s := Stages.SamlTracks(p, NO_FAULTS, a);
    if s.out.Zero? {
      CoreDeletesNothing(s.p, NO_FAULTS, a, n);
    }
  }

  /** Which application, if any, a fault-free pass over an object it follows deletes: the one named like
      the issuer, exactly if the OAuth stage has nothing to do and the SAML registration has drifted. */
  lemma DriftDeletesExactly(w: World, a: Answers, n: string)
    requires Safety.Reaches(w, NO_FAULTS)
    ensures var d := w.stored.value.declared;
            AppDeleted(n) in Run(w, NO_FAULTS, a).log <==>
              OAuthRank(w.oauth, d) == 0 && Drifted(w, d) && n == Issuer(w.env, d)
  {
    Safety.Reached(w, NO_FAULTS, a);
    var p := Safety.Start(w);
    OAuthStageCleanly(p, a);
    OAuthStageDeletesNothing(p, NO_FAULTS, a);
    if OAuthRank(w.oauth, w.stored.value.declared) == 0 {
      ApplicationDeletes(OAuthStage(p, NO_FAULTS, a).p, a, n);
    }
  }

  lemma CreateAnew(p: Pass, a: Answers)
    requires p.sp.declared.spec.name !in p.w.apps
    ensures var s, spec := ReconcileCore(p, NO_FAULTS, a), p.sp.declared.spec;
            && s.out == Requeue && AppCreated(spec.name) in s.p.log && spec.name in s.p.w.apps
            && s.p.w.apps[spec.name] == StoredAnew(spec, a)
  {
    var log := ReconcileCore(p, NO_FAULTS, a).p.log;
    assert log[|p.log| + 1] == AppCreated(p.sp.declared.spec.name);
  }

  /** An application as the server creates it: none of the steps, claims or inbound entries of before. */
  function StoredAnew(spec: SPSpec, a: Answers): StoredApp {
    StoredApp(a.appID, a.appResourceID,
      a.bareApp.(name := spec.name, description := Helpers.ApplicationFromSpec(spec, 0, "").description))
  }

  /** The pass corrects a drift under an issuer that is also the application's name. */
  predicate HitsItself(w: World, d: Declared) {
    OAuthRank(w.oauth, d) == 0 && Drifted(w, d) && Issuer(w.env, d) == d.spec.name
  }

  /** The operator deletes its own application exactly when it is named like the issuer of a drifted
      registration, and then the same pass creates it anew, with fresh identifiers and nothing else. */
  lemma DriftDeletesOwnApplication(w: World, a: Answers)
    requires Safety.Reaches(w, NO_FAULTS)
    ensures var r, d := Run(w, NO_FAULTS, a), w.stored.value.declared;
            && (AppDeleted(d.spec.name) in r.log <==> HitsItself(w, d))
            && (HitsItself(w, d) ==>
                  AppCreated(d.spec.name) in r.log && d.spec.name in r.w.apps
                    && r.w.apps[d.spec.name] == StoredAnew(d.spec, a))
  {
    DriftDeletesExactly(w, a, w.stored.value.declared.spec.name);
    if HitsItself(w, w.stored.value.declared) {
      Safety.Reached(w, NO_FAULTS, a);
      OAuthStageCleanly(Safety.Start(w), a);
      var p := OAuthStage(Safety.Start(w), NO_FAULTS, a).p;
      DriftCorrection(p, a);
      CreateAnew(SamlStage(p, NO_FAULTS, a).p, a);
    }
  }

  // ---------------------------------------------------------------- key rotation

  function Rotated(w: World, key: string): World
    requires w.stored.Some? && w.stored.value.declared.spec.name in w.oauth
  {
    var name := w.stored.value.declared.spec.name;
    w.(oauth := w.oauth[name := w.oauth[name].(oauthConsumerKey := key)])
  }

  lemma RotatedStillInSync(w: World, key: string)
    requires Manageable(w) && Arrived(w) && OAuthActive(w.stored.value.declared) && key != ""
    requires w.stored.value.declared.spec.name in w.oauth
    ensures Manageable(Rotated(w, key)) && SettledButSecret(Rotated(w, key))
    ensures Quietness.ComesInSync(Rotated(w, key)) <==> AppInSync(w.apps, w.env, w.stored.value.declared.spec)
  {
    Quietness.ArrivedHoldsKeys(w);
  }

  /** Arrived, but for what the Secret holds. */
  predicate SettledButSecret(w: World) {
    && w.stored.Some? && SP_FINALIZER in w.stored.value.finalizers
    && OAuthRank(w.oauth, w.stored.value.declared) == 0 && SamlRank(w.saml, w.env, w.stored.value.declared) == 0
    && StatusSettled(w.stored.value.status, w.apps, w.stored.value.declared.spec.name)
  }

  /** Whatever goes out in such a pass carries the registered key; an application in sync is not sent. */
  lemma SettledPass(w: World, a: Answers)
    requires Manageable(w) && Sane(a) && SettledButSecret(w)
    ensures var v, d := Run(w, NO_FAULTS, a).w, w.stored.value.declared;
            && Manageable(v) && Arrived(v) && v.oauth == w.oauth && v.env == w.env && v.stored.value.declared == d
            && (AppInSync(v.apps, w.env, d.spec) <==> Quietness.ComesInSync(w))
            && (AppInSync(w.apps, w.env, d.spec) ==> v == w.(secret := v.secret))
            && (!AppInSync(w.apps, w.env, d.spec) && OAuthActive(d) ==>
                  Stages.CarriesKey(v.apps[d.spec.name].content, Builder.OAUTH2_TYPE,
                    w.oauth[d.spec.name].oauthConsumerKey))
  {
    PassEvolves(w, NO_FAULTS, a);
    CleanRun(w, a);
    var q := CleanPrelude(Pass(w, w.stored.value, []), a);
    Quietness.InSyncAfterOne(w, a);
    CleanSync(q, a);
    CleanSyncArrives(q, a);
    if AppInSync(w.apps, w.env, w.stored.value.declared.spec) {
      CleanSyncRests(q, a);
    } else if OAuthActive(w.stored.value.declared) {
      CorrectionCarriesKey(q);
    }
  }

  /** An agreeing Secret holds the registered consumer key. */
  lemma AgreementHoldsKey(secret: SecretData, oauth: map<string, OAuthRecord>, d: Declared)
    requires OAuthActive(d) && d.spec.name in oauth && OAuthSecretAgrees(secret, oauth, d)
    requires oauth[d.spec.name].oauthConsumerKey != ""
    ensures Secrets.Get(secret, CLIENT_ID) == oauth[d.spec.name].oauthConsumerKey
  {
    KeysDiffer();
    Secrets.UpsertedValue(secret, OAuthKeys(Mapper.MapGetOAuthApplication(oauth[d.spec.name])), CLIENT_ID);
  }

  lemma OutgoingCarriesKey(secret: SecretData, env: Environment, spec: SPSpec, id: int, resourceID: string)
    requires spec.oauth2.Some?
    ensures Stages.CarriesKey(Builder.BuildUpdateApplication(OutgoingApp(secret, env, spec, id, resourceID)),
                              Builder.OAUTH2_TYPE, Secrets.Get(secret, CLIENT_ID))
  {
    SentKeys(secret, spec);
    Stages.BuiltInbound(OutgoingApp(secret, env, spec, id, resourceID));
  }

  lemma CorrectionCarriesKey(p: Pass)
    requires Manageable(p.w) && Fresh(p) && p.sp.declared.spec.name in p.w.apps && OAuthActive(p.sp.declared)
    requires OAuthRank(p.w.oauth, p.sp.declared) == 0 && OAuthSecretAgrees(p.w.secret, p.w.oauth, p.sp.declared)
    requires !AppInSync(p.w.apps, p.w.env, p.sp.declared.spec)
    ensures var name := p.sp.declared.spec.name;
            && name in Corrected(p).apps
            && Stages.CarriesKey(Corrected(p).apps[name].content, Builder.OAUTH2_TYPE, p.w.oauth[name].oauthConsumerKey)
  {
    var spec := p.sp.declared.spec;
    AgreementHoldsKey(p.w.secret, p.w.oauth, p.sp.declared);
    OutgoingCarriesKey(p.w.secret, p.w.env, spec, p.sp.status.id, p.sp.status.resourceID);
    StoredAsSent(p.w, OutgoingApp(p.w.secret, p.w.env, spec, p.sp.status.id, p.sp.status.resourceID));
  }

  lemma StoredAsSent(w: World, desired: Application)
    requires desired.name in w.apps
    ensures desired.name in UpdateApp(w, desired).apps
    ensures UpdateApp(w, desired).apps[desired.name].content == Builder.BuildUpdateApplication(desired)
  {
  }

  lemma {:induction false} SettledPasses(w: World, moves: seq<(Faults, Answers)>)
    requires Manageable(w) && SettledButSecret(w) && AllSane(moves) && AllClean(moves) && moves != []
    requires OAuthActive(w.stored.value.declared)
    requires Quietness.ComesInSync(w) <==> AppInSync(w.apps, w.env, w.stored.value.declared.spec)
    ensures var v, d := Passes(w, moves), w.stored.value.declared;
            && Manageable(v) && Arrived(v) && v.oauth == w.oauth && v.env == w.env && v.stored.value.declared == d
            && (AppInSync(v.apps, w.env, d.spec) <==> AppInSync(w.apps, w.env, d.spec))
            && (AppInSync(w.apps, w.env, d.spec) ==> v.apps == w.apps && v.stored == w.stored)
            && (!AppInSync(w.apps, w.env, d.spec) ==>
                  Stages.CarriesKey(v.apps[d.spec.name].content, Builder.OAUTH2_TYPE,
                    w.oauth[d.spec.name].oauthConsumerKey))
  {
    var init, last := moves[..|moves| - 1], moves[|moves| - 1];
    assert last in moves && forall m | m in init :: m in moves;
    if init == [] {
      SettledPass(w, last.1);
    } else {
      SettledPasses(w, init);
      var v := Passes(w, init);
      Quietness.ArrivedHoldsKeys(v);
      SettledPass(v, last.1);
    }
  }

  /** A consumer key changed in WSO2 after arrival reaches the Secret with the next pass, but the stored
      application only if it is out of sync anyway: only the presence of an inbound entry is compared.
      After any number of clean passes the application carries the new key if and only if it was out of
      sync at the rotation, or happened to carry that key already. */
  lemma RotationExactly(w: World, key: string, moves: seq<(Faults, Answers)>)
    requires Manageable(w) && Arrived(w) && OAuthActive(w.stored.value.declared) && key != ""
    requires w.stored.value.declared.spec.name in w.oauth
    requires AllSane(moves) && AllClean(moves) && moves != []
    ensures var v, spec := Passes(Rotated(w, key), moves), w.stored.value.declared.spec;
            && Secrets.Get(v.secret, CLIENT_ID) == key
            && spec.name in w.apps && spec.name in v.apps
            && (AppInSync(w.apps, w.env, spec) ==> v.apps == w.apps && v.stored == w.stored)
            && (Stages.CarriesKey(v.apps[spec.name].content, Builder.OAUTH2_TYPE, key) <==>
                  || !AppInSync(w.apps, w.env, spec)
                  || Stages.CarriesKey(w.apps[spec.name].content, Builder.OAUTH2_TYPE, key))
  {
    RotatedStillInSync(w, key);
    SettledPasses(Rotated(w, key), moves);
    Quietness.ArrivedHoldsKeys(Passes(Rotated(w, key), moves));
  }

  /** In terms of the spec: after arrival, with every declared kind followed or its key left behind, the
      application is out of sync exactly when its spec does not survive the round trip. */
  lemma ArrivedOutOfSyncExactly(w: World)
    requires Manageable(w) && Arrived(w) && InboundAvailable(w.secret, w.stored.value.declared)
    ensures var spec := w.stored.value.declared.spec;
            AppInSync(w.apps, w.env, spec) <==> RoundTrip.ApplicationSettles(spec)
  {
    Quietness.ArrivedHoldsKeys(w);
    if !RoundTrip.ApplicationSettles(w.stored.value.declared.spec) {
      UnsettledNeverInSync(w);
    }
  }

  // ---------------------------------------------------------------- a lost status write

  /** The OAuth read fails, and so does the report of that failure; everything else works. */
  function LostReport(err: string, err': string): Faults {
    map[OAuthGet := Fail(err, false), OAuthStatus := Fail(err', false)]
  }

  /** The failure is noted in memory only, and the pass carries on. */
  lemma LostReportCarriesOn(p: Pass, err: string, err': string, a: Answers)
    requires OAuthActive(p.sp.declared) && p.sp.status.phase != Failed
    ensures var s := OAuthStage(p, LostReport(err, err'), a);
            && s.out == Zero && s.p.w == p.w
            && s.p.sp == p.sp.(status := p.sp.status.(phase := Failed, message := err))
  {
  }

  /** The application stage meets no fault before its tail. */
  predicate CoreWorks(f: Faults) {
    At(f, AppGet).Fine? && At(f, ScriptGet).Fine? && At(f, InboundGetOAuth).Fine? && At(f, InboundGetSaml).Fine?
      && At(f, AppUpdate).Fine?
  }

  /** The stored application can be read and differs from what is desired. */
  predicate NeedsUpdate(w: World, spec: SPSpec) {
    && spec.name in w.apps && Mapper.Readable(w.apps[spec.name].content.localOutbound.steps)
    && (WantsScript(spec) ==> spec.authenticationScript.value in w.env.configMaps)
    && !AppInSync(w.apps, w.env, spec)
  }

  lemma OutOfSyncSends(p: Pass, f: Faults, a: Answers) returns (q: Pass, existing: Application)
    requires CoreWorks(f) && NeedsUpdate(p.w, p.sp.declared.spec)
    ensures q == AfterRead(p, existing)
    ensures var spec, id, rid := p.sp.declared.spec, p.sp.status.id, p.sp.status.resourceID;
            var (sent, ok) := SendUpdate(q, RoundTrip.Desired(spec, id, rid, Script(p.w.env, spec)), f);
            ReconcileCore(p, f, a) == if ok then Finish(sent.p, p.sp.status, existing.resourceID, f) else sent
  {
    var spec, id, rid := p.sp.declared.spec, p.sp.status.id, p.sp.status.resourceID;
    existing := Mapper.MapGetApplication(EchoApplication(p.w.apps[spec.name])).value;
    q := AfterRead(p, existing);
    DesiredAppIsDesired(p.w.env, spec, id, rid, f);
    VerdictIgnoresIdentity(existing, spec, id, rid, Script(p.w.env, spec));
    assert ReconcileCore(p, f, a) == SyncApplication(p, existing, f);
  }

  lemma OutOfSyncUpdates(p: Pass, f: Faults, a: Answers) returns (e: Event)
    requires CoreWorks(f) && NeedsUpdate(p.w, p.sp.declared.spec)
    ensures e in ReconcileCore(p, f, a).p.log && e.AppUpdated?
  {
    var spec, id, rid := p.sp.declared.spec, p.sp.status.id, p.sp.status.resourceID;
    var q, existing := OutOfSyncSends(p, f, a);
    var (sent, ok) := SendUpdate(q, RoundTrip.Desired(spec, id, rid, Script(p.w.env, spec)), f);
    e := SentIsLast(q, RoundTrip.Desired(spec, id, rid, Script(p.w.env, spec)), f);
    FinishKeepsLog(sent.p, p.sp.status, existing.resourceID, f);
    LaterLogHas(sent.p.log, Finish(sent.p, p.sp.status, existing.resourceID, f).p.log, |q.log|);
  }

  lemma SentIsLast(q: Pass, desired: Application, f: Faults) returns (e: Event)
    requires CoreWorks(f)
    ensures var (sent, ok) := SendUpdate(q, desired, f);
            ok && |sent.p.log| == |q.log| + 1 && sent.p.log[|q.log|] == e && e.AppUpdated?
  {
    e := SendUpdate(q, desired, f).0.p.log[|q.log|];
  }

  lemma LaterLogHas(before: seq<Event>, after: seq<Event>, i: nat)
    requires before <= after && i < |before|
    ensures before[i] in after
  {
    assert after[i] == before[i];
  }

  lemma CarriedOnUpdates(p: Pass, err: string, err': string, a: Answers) returns (e: Event)
    requires OAuthActive(p.sp.declared) && !SamlActive(p.sp.declared) && p.sp.status.phase != Failed
    requires NeedsUpdate(p.w, p.sp.declared.spec)
    ensures e in ReconcileApplication(p, LostReport(err, err'), a).p.log && e.AppUpdated?
  {
    LostReportCarriesOn(p, err, err', a);
    e := OutOfSyncUpdates(OAuthStage(p, LostReport(err, err'), a).p, LostReport(err, err'), a);
  }

  /** Passes that send another key than the registered one do happen: when the OAuth read and the report
      of its failure both fail, the pass carries on, and its update goes out with whatever key the Secret
      held, with a blank one if there is no Secret, for an application that declares OAuth. */
  lemma LostReportSendsOldKey(w: World, a: Answers, err: string, err': string) returns (e: Event)
    requires Safety.Reaches(w, LostReport(err, err'))
    requires var sp := w.stored.value; OAuthActive(sp.declared) && !SamlActive(sp.declared) && sp.status.phase != Failed
    requires NeedsUpdate(w, w.stored.value.declared.spec)
    ensures var log := Run(w, LostReport(err, err'), a).log;
            && e in log && e.AppUpdated?
            && Stages.CarriesKey(e.request, Builder.OAUTH2_TYPE, Secrets.Get(w.secret, CLIENT_ID))
  {
    Safety.Reached(w, LostReport(err, err'), a);
    e := CarriedOnUpdates(Safety.Start(w), err, err', a);
    Safety.InboundKeysExactly(w, LostReport(err, err'), a);
  }
}
