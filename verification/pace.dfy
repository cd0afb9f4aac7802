/** Exactly how many fault-free passes it takes. */
module Pace {
  import opened Wrappers
  import opened World
  import opened Reconcile
  import opened Convergence
  import opened Settling
  import Application
  import RoundTrip

  predicate IsReady(w: World) {
    w.stored.Some? && w.stored.value.status.phase == Ready
  }

  lemma ArrivedIsReady(w: World)
    requires Arrived(w)
    ensures IsReady(w)
  {
  }

  /** How far an unready world may get in one pass: no Ready before the last step, and one step at most. */
  predicate OneStep(w: World, v: World) {
    && w.stored.Some? && v.stored.Some?
    && (if IsReady(v) then Rank(w) <= 1 else Rank(w) <= Rank(v) + 1)
  }

  /** One of the four countable things moved by one, nothing else that counts did. */
  predicate OneGain(w: World, v: World) {
    && w.stored.Some? && v.stored.Some? && v.env == w.env
    && v.stored.value == w.stored.value.(finalizers := v.stored.value.finalizers, status := v.stored.value.status)
    && v.stored.value.status.adminCanView == w.stored.value.status.adminCanView
    && v.stored.value.status.phase != Ready
  }

  lemma GainIsOneStep(w: World, v: World)
    requires OneGain(w, v) && !IsReady(w)
    requires var d := w.stored.value.declared;
             || (v == w.(stored := v.stored))
             || (v == w.(oauth := v.oauth, secret := v.secret))
             || (v == w.(saml := v.saml, secret := v.secret))
             || (v == w.(apps := v.apps, dir := v.dir, stored := v.stored, secret := v.secret)
                 && v.stored.value.finalizers == w.stored.value.finalizers
                 && (AdminMember(v.dir, d.spec.name) ==> AdminMember(w.dir, d.spec.name) || d.spec.name in w.apps)
                 && (d.spec.name in w.apps ==> d.spec.name in v.apps))
    ensures OneStep(w, v)
  {
  }

  // ---------------------------------------------------------------- the cases

  /** Creation reports Pending and, unless the server admits administrators itself, admits none. */
  lemma CreateIsOneGain(p: Pass, a: Answers)
    requires Manageable(p.w) && Fresh(p) && p.sp.declared.spec.name !in p.w.apps && ADMIN !in a.groupMembers
    ensures var v := ReconcileCore(p, NO_FAULTS, a).p.w;
            && OneGain(p.w, v) && v == p.w.(apps := v.apps, dir := v.dir, stored := v.stored)
            && v.stored.value.finalizers == p.sp.finalizers
            && (AdminMember(v.dir, p.sp.declared.spec.name) ==> AdminMember(p.w.dir, p.sp.declared.spec.name))
  {
  }

  /** With the application present the pass ends Ready or joins the administrator, never both. */
  lemma SyncIsOneGain(p: Pass, a: Answers)
    requires Manageable(p.w) && Fresh(p) && p.sp.declared.spec.name in p.w.apps && p.sp.status.phase != Ready
    requires !p.sp.status.adminCanView && !AdminMember(p.w.dir, p.sp.declared.spec.name)
    ensures var v := ReconcileCore(p, NO_FAULTS, a).p.w;
            && OneGain(p.w, v) && v == p.w.(apps := v.apps, dir := v.dir) && p.sp.declared.spec.name in v.apps
  {
    CorrectedSettles(p);
    var q := CleanSyncCorrects(p, a);
    CleanFinish(q, p.sp, p.w.apps[p.sp.declared.spec.name].resourceID);
  }

  lemma SyncEndsReady(p: Pass, a: Answers)
    requires Manageable(p.w) && Fresh(p) && p.sp.declared.spec.name in p.w.apps
    requires p.sp.status.adminCanView || AdminMember(p.w.dir, p.sp.declared.spec.name)
    ensures IsReady(ReconcileCore(p, NO_FAULTS, a).p.w)
  {
    CleanSync(p, a);
  }

  /** Registrations settled: what the application stage gains. */
  lemma CoreIsOneStep(w: World, a: Answers)
    requires Manageable(w) && Sane(a) && !IsReady(w) && ADMIN !in a.groupMembers
        && SP_FINALIZER in w.stored.value.finalizers
    requires OAuthRank(w.oauth, w.stored.value.declared) == 0 && SamlRank(w.saml, w.env, w.stored.value.declared) == 0
    ensures OneStep(w, Run(w, NO_FAULTS, a).w)
  {
    CleanRun(w, a);
    var q := CleanPrelude(Pass(w, w.stored.value, []), a);
    var d := w.stored.value.declared;
    if d.spec.name !in w.apps {
      CreateIsOneGain(q, a);
      GainIsOneStep(w, Run(w, NO_FAULTS, a).w);
    } else if !w.stored.value.status.adminCanView && !AdminMember(w.dir, d.spec.name) {
      SyncIsOneGain(q, a);
      GainIsOneStep(w, Run(w, NO_FAULTS, a).w);
    } else {
      SyncEndsReady(q, a);
      LastStep(w);
    }
  }

  lemma LastStep(w: World)
    requires w.stored.Some? && SP_FINALIZER in w.stored.value.finalizers && w.stored.value.declared.spec.name in w.apps
    requires OAuthRank(w.oauth, w.stored.value.declared) == 0 && SamlRank(w.saml, w.env, w.stored.value.declared) == 0
    requires w.stored.value.status.adminCanView || AdminMember(w.dir, w.stored.value.declared.spec.name)
    ensures Rank(w) <= 1
  {
  }

  lemma StagesAreOneStep(w: World, a: Answers)
    requires Manageable(w) && Sane(a) && !IsReady(w) && SP_FINALIZER in w.stored.value.finalizers
    requires OAuthRank(w.oauth, w.stored.value.declared) == 1 || SamlRank(w.saml, w.env, w.stored.value.declared) == 1
    ensures OneStep(w, Run(w, NO_FAULTS, a).w)
  {
    CleanRun(w, a);
    var p := Pass(w, w.stored.value, []);
    if OAuthRank(w.oauth, p.sp.declared) == 1 {
      CleanOAuthStageWorks(p, a);
    } else {
      CleanOAuthStageRests(p, a);
      OAuthStageEvolves(p, NO_FAULTS, a);
      CleanSamlStageWorks(OAuthStage(p, NO_FAULTS, a).p, a);
    }
    GainIsOneStep(w, Run(w, NO_FAULTS, a).w);
  }

  /** No fault-free pass takes more than one step. */
  lemma CleanPassIsOneStep(w: World, a: Answers)
    requires Manageable(w) && Sane(a) && !IsReady(w) && ADMIN !in a.groupMembers
    ensures OneStep(w, Run(w, NO_FAULTS, a).w)
  {
    var d := w.stored.value.declared;
    if SP_FINALIZER !in w.stored.value.finalizers {
      CleanRun(w, a);
      GainIsOneStep(w, Run(w, NO_FAULTS, a).w);
    } else if OAuthRank(w.oauth, d) == 1 || SamlRank(w.saml, w.env, d) == 1 {
      StagesAreOneStep(w, a);
    } else {
      CoreIsOneStep(w, a);
    }
  }

  // ---------------------------------------------------------------- the exact number

  predicate NoneAdmitted(moves: seq<(Faults, Answers)>) {
    forall m | m in moves :: ADMIN !in m.1.groupMembers
  }

  lemma {:induction false} NotReadyBefore(w: World, moves: seq<(Faults, Answers)>)
    requires Manageable(w) && !IsReady(w) && AllSane(moves) && AllClean(moves) && NoneAdmitted(moves)
    requires |moves| < Rank(w)
    ensures var v := Passes(w, moves); Manageable(v) && !IsReady(v) && Rank(w) <= Rank(v) + |moves|
  {
    if moves != [] {
      var init, last := moves[..|moves| - 1], moves[|moves| - 1];
      assert last in moves && forall m | m in init :: m in moves;
      NotReadyBefore(w, init);
      var v := Passes(w, init);
      PassEvolves(v, NO_FAULTS, last.1);
      CleanPassIsOneStep(v, last.1);
    }
  }

  /** Exact convergence time: from a status that is not Ready, and with a server that admits no
      administrator by itself, Ready is persisted after a number of fault-free passes if and only if
      that number is at least the measure of the start state. In particular a fresh object with OAuth
      and SAML takes exactly six. */
  lemma ExactConvergenceTime(w: World, moves: seq<(Faults, Answers)>)
    requires Manageable(w) && !IsReady(w) && AllSane(moves) && AllClean(moves) && NoneAdmitted(moves)
    ensures IsReady(Passes(w, moves)) <==> |moves| >= Rank(w)
  {
    if |moves| < Rank(w) {
      NotReadyBefore(w, moves);
    } else {
      CleanPassesLower(w, moves);
      RankAtMostSix(Passes(w, moves));
      ArrivedIsReady(Passes(w, moves));
    }
  }

  /** An object just declared, with nothing in WSO2 and no Secret. */
  function FreshWorld(d: Declared, env: Environment): World {
    World(Some(SP({}, d, BLANK_STATUS)), None, env, map[], map[], map[], Directory(map[], map[]))
  }

  /** The start conditions hold of every fresh object, and its measure is four, plus one for each of
      OAuth and SAML that is followed. */
  lemma FreshObject(d: Declared, env: Environment)
    requires DeclarationOperable(d, env) && (OAuthActive(d) ==> RoundTrip.OAuthSettles(d.spec.oauth2.value))
    ensures var w := FreshWorld(d, env);
            && Manageable(w) && !IsReady(w)
            && Rank(w) == 4 + (if OAuthActive(d) then 1 else 0) + (if SamlActive(d) then 1 else 0)
  {
    var w := FreshWorld(d, env);
    assert !AdminMember(w.dir, d.spec.name);
    assert SamlActive(d) ==> ReadSaml(w.saml, Issuer(env, d)) == Application.BLANK_SAML;
  }
}
