/** Which objects the loop ever leaves alone. */
module Quietness {
  import opened Wrappers
  import opened Server
  import opened World
  import opened Reconcile
  import opened Convergence
  import opened Settling
  import Application
  import Helpers
  import Mapper
  import RoundTrip
  import Safety
  import Secrets

  /** The application is in sync, or the next update gets it there. */
  predicate ComesInSync(w: World)
    requires w.stored.Some?
  {
    var d := w.stored.value.declared;
    || AppInSync(w.apps, w.env, d.spec)
    || (RoundTrip.ApplicationSettles(d.spec) && InboundAvailable(w.secret, d))
  }

  /** No pass, however it fails, brings in the key of a kind that is not followed, or loses one. */
  lemma AvailabilityStays(w: World, f: Faults, a: Answers)
    requires w.stored.Some?
    ensures var d := w.stored.value.declared; InboundAvailable(Run(w, f, a).w.secret, d) <==>
        InboundAvailable(w.secret, d)
  {
    var d := w.stored.value.declared;
    if !OAuthActive(d) {
      Safety.OAuthPausedPass(w, f, a);
    }
    if !SamlActive(d) {
      Safety.SamlPausedPass(w, f, a);
    }
  }

  /** When a pass gets as far as an existing application, the application is in sync afterwards if and
      only if it was before, or the spec survives the round trip and the key of every declared kind is at hand. */
  lemma InSyncAfterOne(w: World, a: Answers)
    requires Manageable(w) && Sane(a) && SP_FINALIZER in w.stored.value.finalizers
    requires OAuthRank(w.oauth, w.stored.value.declared) == 0 && SamlRank(w.saml, w.env, w.stored.value.declared) == 0
    requires w.stored.value.declared.spec.name in w.apps
    ensures AppInSync(Run(w, NO_FAULTS, a).w.apps, w.env, w.stored.value.declared.spec) <==> ComesInSync(w)
  {
    CleanRun(w, a);
    var q := CleanPrelude(Pass(w, w.stored.value, []), a);
    CorrectedSettles(q);
    CleanSync(q, a);
  }

  /** Would an application straight from creation compare as unchanged, by luck of the server's defaults? */
  predicate BareInSync(env: Environment, spec: Application.SPSpec, a: Answers) {
    var desired := Helpers.ApplicationFromSpec(spec, 0, "");
    var content := a.bareApp.(name := desired.name, description := desired.description);
    AppInSync(map[spec.name := StoredApp(a.appID, a.appResourceID, content)], env, spec)
  }

  lemma CreatedAsBare(p: Pass, a: Answers)
    requires Manageable(p.w) && Fresh(p) && p.sp.declared.spec.name !in p.w.apps
    ensures var spec := p.sp.declared.spec;
            AppInSync(ReconcileCore(p, NO_FAULTS, a).p.w.apps, p.w.env, spec) <==> BareInSync(p.w.env, spec, a)
  {
    CleanCreate(p, a);
  }

  lemma CreationKeepsComing(w: World, a: Answers)
    requires Manageable(w) && Sane(a) && SP_FINALIZER in w.stored.value.finalizers
    requires OAuthRank(w.oauth, w.stored.value.declared) == 0 && SamlRank(w.saml, w.env, w.stored.value.declared) == 0
    requires var spec := w.stored.value.declared.spec; spec.name !in w.apps && !BareInSync(w.env, spec, a)
    ensures !AppInSync(Run(w, NO_FAULTS, a).w.apps, w.env, w.stored.value.declared.spec)
  {
    CleanRun(w, a);
    var q := CleanPrelude(Pass(w, w.stored.value, []), a);
    CreatedAsBare(q, a);
  }

  /** A pass that stops at a registration leaves applications alone. */
  lemma StagesKeepApps(w: World, a: Answers)
    requires Manageable(w) && Sane(a) && SP_FINALIZER in w.stored.value.finalizers
    requires OAuthRank(w.oauth, w.stored.value.declared) == 1 || SamlRank(w.saml, w.env, w.stored.value.declared) == 1
    ensures Run(w, NO_FAULTS, a).w.apps == w.apps
  {
    CleanRun(w, a);
    var p := Pass(w, w.stored.value, []);
    if OAuthRank(w.oauth, p.sp.declared) == 1 {
      CleanOAuthStageWorks(p, a);
    } else {
      CleanOAuthStageRests(p, a);
      OAuthStageEvolves(p, NO_FAULTS, a);
      CleanSamlStageWorks(OAuthStage(p, NO_FAULTS, a).p, a);
    }
  }

  /** A clean pass changes nothing about whether the application comes in sync. */
  lemma ComingStays(w: World, a: Answers)
    requires Manageable(w) && Sane(a)
    requires var spec := w.stored.value.declared.spec; spec.name in w.apps || !BareInSync(w.env, spec, a)
    ensures var v := Run(w, NO_FAULTS, a).w;
            && v.stored.Some? && v.stored.value.declared == w.stored.value.declared && v.env == w.env
            && (w.stored.value.declared.spec.name in w.apps ==> w.stored.value.declared.spec.name in v.apps)
            && (ComesInSync(v) <==> ComesInSync(w))
  {
    PassEvolves(w, NO_FAULTS, a);
    AvailabilityStays(w, NO_FAULTS, a);
    var d := w.stored.value.declared;
    if SP_FINALIZER !in w.stored.value.finalizers {
      CleanRun(w, a);
    } else if OAuthRank(w.oauth, d) == 1 || SamlRank(w.saml, w.env, d) == 1 {
      StagesKeepApps(w, a);
    } else if d.spec.name in w.apps {
      InSyncAfterOne(w, a);
    } else {
      CreationKeepsComing(w, a);
    }
  }

  predicate NoLuck(env: Environment, spec: Application.SPSpec, moves: seq<(Faults, Answers)>) {
    forall m | m in moves :: !BareInSync(env, spec, m.1)
  }

  lemma {:induction false} ComingStaysOn(w: World, moves: seq<(Faults, Answers)>)
    requires Manageable(w) && AllSane(moves) && AllClean(moves)
    requires var spec := w.stored.value.declared.spec; spec.name in w.apps || NoLuck(w.env, spec, moves)
    ensures var v, name := Passes(w, moves), w.stored.value.declared.spec.name;
            && Manageable(v) && v.stored.value.declared == w.stored.value.declared && v.env == w.env
            && (name in w.apps ==> name in v.apps)
            && (ComesInSync(v) <==> ComesInSync(w))
  {
    if moves != [] {
      var init, last := moves[..|moves| - 1], moves[|moves| - 1];
      assert last in moves && forall m | m in init :: m in moves;
      ComingStaysOn(w, init);
      PassEvolves(Passes(w, init), NO_FAULTS, last.1);
      ComingStays(Passes(w, init), last.1);
    }
  }

  /** After arrival every followed kind has its key in the Secret. */
  lemma ArrivedHoldsKeys(w: World)
    requires Manageable(w) && Arrived(w)
    ensures KeysAtHand(w.secret, w.stored.value.declared.spec) <==> InboundAvailable(w.secret, w.stored.value.declared)
    ensures OAuthActive(w.stored.value.declared) ==>
              && w.stored.value.declared.spec.name in w.oauth
              && Secrets.Get(w.secret, CLIENT_ID) == w.oauth[w.stored.value.declared.spec.name].oauthConsumerKey
  {
    var d := w.stored.value.declared;
    KeysDiffer();
    if OAuthActive(d) {
      Secrets.UpsertedValue(w.secret, OAuthKeys(Mapper.MapGetOAuthApplication(w.oauth[d.spec.name])), CLIENT_ID);
    }
    if SamlActive(d) {
      Secrets.UpsertedValue(w.secret, SamlKeys(ReadSaml(w.saml, Issuer(w.env, d))), SAML_ISSUER);
    }
  }

  /** Exactly these objects are ever left alone: after six or more clean passes the next one sends
      nothing that changes WSO2 if and only if the application was in sync to begin with, or its spec
      survives the round trip and every declared kind is followed or has left its key in the Secret. A
      missing application must not, by luck, be created in sync. */
  lemma EventuallyQuiet(w: World, moves: seq<(Faults, Answers)>, a: Answers)
    requires Manageable(w) && AllSane(moves) && AllClean(moves) && |moves| >= 6 && Sane(a)
    requires var spec := w.stored.value.declared.spec; spec.name in w.apps || NoLuck(w.env, spec, moves)
    ensures Quiet(Run(Passes(w, moves), NO_FAULTS, a).log) <==> ComesInSync(w)
  {
    ConvergesWithinSix(w, [], moves);
    var v := Passes(w, moves);
    ComingStaysOn(w, moves);
    ArrivedHoldsKeys(v);
    QuietExactlyWhenInSync(v, a);
  }
}
