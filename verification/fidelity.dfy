/** What a whole pass does under any faults, in terms of the stored records, the requests on the wire and the
    literal annotations, keys and messages. */
module Fidelity {
  import opened Wrappers
  import opened Application
  import opened Server
  import opened World
  import opened Reconcile
  import opened Accounts
  import opened Wire
  import Credentials
  import Safety
  import Secrets
  import Shapes
  import Stages

  // ---------------------------------------------------------------- how far a pass gets

  /** The OAuth stage lets the pass go on. */
  predicate PastOAuth(w: World, f: Faults) {
    Enters(w, f) && OAuthOutcome(w.oauth, w.stored.value.declared, w.stored.value.status, f) == Zero
  }

  /** The status in memory once the OAuth stage is through, and once the SAML stage is. */
  function AfterOAuth(w: World, f: Faults): Status
    requires w.stored.Some?
  {
    Noted(w.stored.value.status, OAuthFailure(w.oauth, w.stored.value.declared, f))
  }

  function AfterSaml(w: World, f: Faults): Status
    requires w.stored.Some?
  {
    Noted(AfterOAuth(w, f), SamlProblem(w.env, w.saml, w.stored.value.declared, f))
  }

  /** So does the SAML stage. */
  predicate PastSaml(w: World, f: Faults) {
    PastOAuth(w, f) && SamlEnd(w.env, w.saml, w.stored.value.declared, AfterOAuth(w, f), f) == Zero
  }

  /** The pass after its OAuth stage, and after its SAML stage. */
  function OAuthPart(w: World, f: Faults, a: Answers): Step
    requires w.stored.Some?
  {
    OAuthStage(Safety.Start(w), f, a)
  }

  function SamlPart(w: World, f: Faults, a: Answers): Step
    requires w.stored.Some?
  {
    SamlStage(OAuthPart(w, f, a).p, f, a)
  }

  lemma ConfinedToOAuth(log: seq<Event>)
    requires Stages.Confined([], log, Shapes.OAuthPart, OAuthStatus)
    ensures forall e | e in log :: IsOAuth(e) || e.StatusSent?
  {
    forall e | e in log ensures IsOAuth(e) || e.StatusSent? {
      assert e !in [];
    }
  }

  lemma OAuthStageFrame(p: Pass, f: Faults, a: Answers)
    requires p.w.stored.Some? && p.log == []
    ensures var s := OAuthStage(p, f, a);
            && s.p.w == p.w.(stored := s.p.w.stored, oauth := s.p.w.oauth, secret := s.p.w.secret)
            && s.p.w.stored.Some?
            && forall e | e in s.p.log :: IsOAuth(e) || e.StatusSent?
  {
    var s := Stages.OAuthTracks(p, f, a);
    ConfinedToOAuth(s.p.log);
  }

  lemma OAuthPartFrame(w: World, f: Faults, a: Answers)
    requires w.stored.Some?
    ensures var s := OAuthPart(w, f, a);
            && s.p.w == w.(stored := s.p.w.stored, oauth := s.p.w.oauth, secret := s.p.w.secret)
            && s.p.w.stored.Some?
            && forall e | e in s.p.log :: IsOAuth(e) || e.StatusSent?
  {
    OAuthStageFrame(Safety.Start(w), f, a);
  }

  lemma OAuthPartTold(w: World, f: Faults, a: Answers)
    requires w.stored.Some?
    ensures var s, d := OAuthPart(w, f, a), w.stored.value.declared;
            && OAuthAccount(w.oauth, d, f, a, s.p.w.oauth, s.p.log)
            && s.out == OAuthOutcome(w.oauth, d, w.stored.value.status, f)
            && s.p.sp == w.stored.value.(status := AfterOAuth(w, f))
  {
    OAuthStageAccount(Safety.Start(w), f, a);
  }

  lemma SamlStageFrame(p: Pass, f: Faults, a: Answers)
    requires p.w.stored.Some? && forall e | e in p.log :: IsOAuth(e) || e.StatusSent?
    ensures var s := SamlStage(p, f, a);
            && s.p.w == p.w.(stored := s.p.w.stored, saml := s.p.w.saml, apps := s.p.w.apps, secret := s.p.w.secret)
            && s.p.w.stored.Some?
            && (forall e: Event | IsOAuth(e) :: e in s.p.log <==> e in p.log)
            && forall e | e in s.p.log :: IsOAuth(e) || IsSaml(e) || e.StatusSent?
  {
    var s := Stages.SamlTracks(p, f, a);
  }

  lemma SamlPartFrame(w: World, f: Faults, a: Answers)
    requires w.stored.Some?
    ensures var r, s := OAuthPart(w, f, a), SamlPart(w, f, a);
            && s.p.w == w.(stored := s.p.w.stored, oauth := r.p.w.oauth, saml := s.p.w.saml, apps := s.p.w.apps,
                           secret := s.p.w.secret)
            && s.p.w.stored.Some?
            && (forall e: Event | IsOAuth(e) :: e in s.p.log <==> e in r.p.log)
            && forall e | e in s.p.log :: IsOAuth(e) || IsSaml(e) || e.StatusSent?
  {
    OAuthPartFrame(w, f, a);
    SamlStageFrame(OAuthPart(w, f, a).p, f, a);
  }

  /** A pass as it comes to the SAML stage. */
  ghost predicate MetBySaml(w: World, f: Faults, p: Pass)
    requires w.stored.Some?
  {
    && p.w == w.(stored := p.w.stored, oauth := p.w.oauth, secret := p.w.secret) && p.w.stored.Some?
    && p.sp == w.stored.value.(status := AfterOAuth(w, f))
    && forall e | e in p.log :: IsOAuth(e) || e.StatusSent?
  }

  lemma OAuthPartIsMet(w: World, f: Faults, a: Answers)
    requires w.stored.Some?
    ensures MetBySaml(w, f, OAuthPart(w, f, a).p)
  {
    OAuthPartFrame(w, f, a);
    OAuthPartTold(w, f, a);
  }

  lemma SamlToldFrom(w: World, f: Faults, a: Answers, p: Pass)
    requires w.stored.Some? && MetBySaml(w, f, p)
    ensures var s, d := SamlStage(p, f, a), w.stored.value.declared;
            && SamlAccount(w.env, w.saml, d, f, a, s.p.w.saml, s.p.log)
            && s.p.w.apps == SamlLeaves(w.apps, w.env, w.saml, d, f)
            && s.out == SamlEnd(w.env, w.saml, d, AfterOAuth(w, f), f)
            && s.p.sp == w.stored.value.(status := AfterSaml(w, f))
  {
    SamlStageAccount(p, f, a);
  }

  lemma SamlPartTold(w: World, f: Faults, a: Answers)
    requires w.stored.Some?
    ensures var s, d := SamlPart(w, f, a), w.stored.value.declared;
            && SamlAccount(w.env, w.saml, d, f, a, s.p.w.saml, s.p.log)
            && s.p.w.apps == SamlLeaves(w.apps, w.env, w.saml, d, f)
            && s.out == SamlEnd(w.env, w.saml, d, AfterOAuth(w, f), f)
            && s.p.sp == w.stored.value.(status := AfterSaml(w, f))
  {
    OAuthPartIsMet(w, f, a);
    SamlToldFrom(w, f, a, OAuthPart(w, f, a).p);
  }

  /** A pass that enters is its stages, one after the other. */
  lemma RunIs(w: World, f: Faults, a: Answers)
    requires Enters(w, f)
    ensures var r, s := OAuthPart(w, f, a), SamlPart(w, f, a);
            var t := if !PastOAuth(w, f) then r else if !PastSaml(w, f) then s else ReconcileCore(s.p, f, a);
            Run(w, f, a) == Ran(t.p.w, t.p.log, t.out)
  {
    EntersExactly(w, f);
    Safety.Reached(w, f, a);
    OAuthPartTold(w, f, a);
    SamlPartTold(w, f, a);
  }

  /** The applications as the application stage meets them. */
  function AppsMet(w: World, f: Faults): map<string, StoredApp>
    requires w.stored.Some?
  {
    SamlLeaves(w.apps, w.env, w.saml, w.stored.value.declared, f)
  }

  /** A pass as it comes to the application stage. */
  ghost predicate Met(w: World, f: Faults, p: Pass)
    requires w.stored.Some?
  {
    && p.w == w.(stored := p.w.stored, oauth := p.w.oauth, saml := p.w.saml, secret := p.w.secret,
                 apps := AppsMet(w, f))
    && p.sp == w.stored.value.(status := AfterSaml(w, f)) && p.w.stored.Some?
    && forall e | e in p.log :: IsOAuth(e) || IsSaml(e) || e.StatusSent?
  }

  lemma SamlPartIsMet(w: World, f: Faults, a: Answers)
    requires w.stored.Some?
    ensures Met(w, f, SamlPart(w, f, a).p)
  {
    SamlPartFrame(w, f, a);
    SamlPartTold(w, f, a);
  }

  /** What the application stage leaves of the groups, how it ends, and what it adds to the journal. */
  lemma CorePartFrame(w: World, f: Faults, a: Answers, p: Pass, q: Pass, s: Step)
    requires w.stored.Some? && Met(w, f, p) && AppFrame(p, q, f, a) && AppEnds(p, q, s, f)
    ensures var d, apps := w.stored.value.declared, SamlLeaves(w.apps, w.env, w.saml, w.stored.value.declared, f);
            && s.p.w == p.w.(stored := s.p.w.stored, apps := q.w.apps, dir := s.p.w.dir)
            && s.p.w.dir == DirAfter(apps, w.env, w.dir, d.spec, AfterSaml(w, f), f, a)
            && s.out == AppOutcome(apps, w.env, w.dir, d.spec, AfterSaml(w, f), f)
            && (forall e: Event | IsApp(e) :: e in s.p.log <==> e in q.log)
            && TellsJoin(s.p.log, apps, w.env, w.dir, d.spec, AfterSaml(w, f), f)
            && (forall e: Event | IsOAuth(e) || IsSaml(e) :: e in s.p.log <==> e in p.log)
  {
    CoreLeaves(p, q, s, f, a);
    CoreTells(p, q, s, f, a);
  }

  lemma CorePartTold(w: World, f: Faults, a: Answers, p: Pass, q: Pass, s: Step, request: ServiceProviderRequest)
    requires w.stored.Some? && Met(w, f, p) && AppDid(p, q, f, a, request)
    requires forall e: Event | IsApp(e) :: e in s.p.log <==> e in q.log
    ensures var d, apps := w.stored.value.declared, SamlLeaves(w.apps, w.env, w.saml, w.stored.value.declared, f);
            AppAccount(apps, w.env, p.w.secret, d.spec, w.stored.value.status.id, f, a, q.w.apps, s.p.log, request)
  {
    SameAppEvents(p.w.apps, p.w.env, p.w.secret, p.sp.declared.spec, p.sp.status.id, f, a, q.w.apps, q.log, s.p.log,
                  request);
  }

  // ---------------------------------------------------------------- whole passes

  lemma SameOAuthEvents(
    oauth: map<string, OAuthRecord>, d: Declared, f: Faults, a: Answers, after: map<string, OAuthRecord>,
    log: seq<Event>, log': seq<Event>)
    requires OAuthAccount(oauth, d, f, a, after, log) && forall e: Event | IsOAuth(e) :: e in log' <==> e in log
    ensures OAuthAccount(oauth, d, f, a, after, log')
  {
  }

  lemma SameSamlEvents(
    env: Environment, saml: map<string, SAMLConfig>, d: Declared, f: Faults, a: Answers,
    after: map<string, SAMLConfig>, log: seq<Event>, log': seq<Event>)
    requires SamlAccount(env, saml, d, f, a, after, log) && forall e: Event | IsSaml(e) :: e in log' <==> e in log
    ensures SamlAccount(env, saml, d, f, a, after, log')
  {
  }

  /** The application stage in full. */
  lemma CoreWhole(w: World, f: Faults, a: Answers, p: Pass) returns (s: Step, request: ServiceProviderRequest)
    requires w.stored.Some? && Met(w, f, p)
    ensures s == ReconcileCore(p, f, a)
    ensures var spec, apps := w.stored.value.declared.spec, AppsMet(w, f);
            && s.p.w == p.w.(stored := s.p.w.stored, apps := s.p.w.apps, dir := s.p.w.dir)
            && AppAccount(apps, w.env, p.w.secret, spec, w.stored.value.status.id, f, a, s.p.w.apps, s.p.log, request)
            && s.p.w.dir == DirAfter(apps, w.env, w.dir, spec, AfterSaml(w, f), f, a)
            && s.out == AppOutcome(apps, w.env, w.dir, spec, AfterSaml(w, f), f)
            && TellsJoin(s.p.log, apps, w.env, w.dir, spec, AfterSaml(w, f), f)
            && (forall e: Event | IsOAuth(e) || IsSaml(e) :: e in s.p.log <==> e in p.log)
  {
    var q;
    s := ReconcileCore(p, f, a);
    q, request := AppStageAccount(p, f, a);
    CorePartFrame(w, f, a, p, q, s);
    CorePartTold(w, f, a, p, q, s, request);
  }

  /** What later stages leave alone. */
  lemma LaterStages(w: World, f: Faults, a: Answers)
    requires Enters(w, f)
    ensures var r, s, v := OAuthPart(w, f, a), SamlPart(w, f, a), Run(w, f, a);
            && v.w.oauth == r.p.w.oauth && (forall e: Event | IsOAuth(e) :: e in v.log <==> e in r.p.log)
            && (PastOAuth(w, f) ==>
                  && v.w.saml == s.p.w.saml && v.w.secret == s.p.w.secret
                  && (forall e: Event | IsSaml(e) :: e in v.log <==> e in s.p.log))
            && (!PastOAuth(w, f) ==> v.w == r.p.w && v.log == r.p.log)
            && (PastOAuth(w, f) && !PastSaml(w, f) ==> v.w == s.p.w && v.log == s.p.log)
  {
    RunIs(w, f, a);
    OAuthPartFrame(w, f, a);
    SamlPartFrame(w, f, a);
    if PastSaml(w, f) {
      SamlPartIsMet(w, f, a);
      var s, request := CoreWhole(w, f, a, SamlPart(w, f, a).p);
    }
  }

  /** OAuth registrations, for every pass: what is read, registered, corrected or left alone, and that what is
      written is what the spec says, field by field. */
  lemma OAuthIsTold(w: World, f: Faults, a: Answers)
    requires w.stored.Some?
    ensures var r, d := Run(w, f, a), w.stored.value.declared;
            if Enters(w, f) then OAuthAccount(w.oauth, d, f, a, r.w.oauth, r.log)
            else r.w.oauth == w.oauth && TellsOAuth(r.log, {})
  {
    EntersExactly(w, f);
    if Enters(w, f) {
      LaterStages(w, f, a);
      OAuthPartTold(w, f, a);
      SameOAuthEvents(w.oauth, w.stored.value.declared, f, a, OAuthPart(w, f, a).p.w.oauth, OAuthPart(w, f, a).p.log,
                      Run(w, f, a).log);
    } else {
      Safety.StopsShort(w, f, a);
    }
  }

  lemma SamlToldPast(w: World, f: Faults, a: Answers)
    requires PastOAuth(w, f)
    ensures var r, d := Run(w, f, a), w.stored.value.declared;
            SamlAccount(w.env, w.saml, d, f, a, r.w.saml, r.log)
  {
    var d, v, s := w.stored.value.declared, Run(w, f, a), SamlPart(w, f, a);
    assert v.w.saml == s.p.w.saml && (forall e: Event | IsSaml(e) :: e in v.log <==> e in s.p.log) by {
      LaterStages(w, f, a);
    }
    assert SamlAccount(w.env, w.saml, d, f, a, s.p.w.saml, s.p.log) by { SamlPartTold(w, f, a); }
    SameSamlEvents(w.env, w.saml, d, f, a, s.p.w.saml, s.p.log, v.log);
  }

  lemma SamlToldBefore(w: World, f: Faults, a: Answers)
    requires Enters(w, f) && !PastOAuth(w, f)
    ensures var r := Run(w, f, a); r.w.saml == w.saml && forall e | e in r.log :: !IsSaml(e)
  {
    LaterStages(w, f, a);
    OAuthPartFrame(w, f, a);
  }

  lemma SamlToldShort(w: World, f: Faults, a: Answers)
    requires !Enters(w, f)
    ensures var r := Run(w, f, a); r.w.saml == w.saml && forall e | e in r.log :: !e.SamlRead? && !e.SamlAdded?
  {
    EntersExactly(w, f);
    Safety.StopsShort(w, f, a);
  }

  /** SAML registrations, for every pass: what is read, deleted, added or left alone, and that what is added is
      what metadata and spec say, field by field. */
  lemma SamlIsTold(w: World, f: Faults, a: Answers)
    requires w.stored.Some?
    ensures var r, d := Run(w, f, a), w.stored.value.declared;
            if PastOAuth(w, f) then SamlAccount(w.env, w.saml, d, f, a, r.w.saml, r.log)
            else if Enters(w, f) then r.w.saml == w.saml && forall e | e in r.log :: !IsSaml(e)
            else r.w.saml == w.saml && forall e | e in r.log :: !e.SamlRead? && !e.SamlAdded?
  {
    if PastOAuth(w, f) {
      SamlToldPast(w, f, a);
    } else if Enters(w, f) {
      SamlToldBefore(w, f, a);
    } else {
      SamlToldShort(w, f, a);
    }
  }

  lemma AppsFromStages(w: World, f: Faults, a: Answers, v: Ran, r: Step, s: Step)
    returns (request: ServiceProviderRequest)
    requires Enters(w, f) && Met(w, f, s.p)
    requires r.p.w.apps == w.apps && forall e | e in r.p.log :: IsOAuth(e) || e.StatusSent?
    requires var t := if !PastOAuth(w, f) then r else if !PastSaml(w, f) then s else ReconcileCore(s.p, f, a);
             v == Ran(t.p.w, t.p.log, t.out)
    ensures var spec, id := w.stored.value.declared.spec, w.stored.value.status.id;
            if PastSaml(w, f) then
              AppAccount(AppsMet(w, f), w.env, v.w.secret, spec, id, f, a, v.w.apps, v.log, request)
            else v.w.apps == (if PastOAuth(w, f) then AppsMet(w, f) else w.apps) && TellsApp(v.log, {})
  {
    request := a.bareApp;
    if PastSaml(w, f) {
      var t;
      t, request := CoreWhole(w, f, a, s.p);
    }
  }

  /** Applications, for every pass that enters: what is read, deleted, created, updated or left alone; that a created
      application has the spec's name and description, and that an update is what spec, script and Secret say. */
  lemma AppsAreTold(w: World, f: Faults, a: Answers) returns (request: ServiceProviderRequest)
    requires Enters(w, f)
    ensures var r, spec, id := Run(w, f, a), w.stored.value.declared.spec, w.stored.value.status.id;
            if PastSaml(w, f) then
              AppAccount(AppsMet(w, f), w.env, r.w.secret, spec, id, f, a, r.w.apps, r.log, request)
            else r.w.apps == (if PastOAuth(w, f) then AppsMet(w, f) else w.apps) && TellsApp(r.log, {})
  {
    RunIs(w, f, a);
    OAuthPartFrame(w, f, a);
    SamlPartIsMet(w, f, a);
    request := AppsFromStages(w, f, a, Run(w, f, a), OAuthPart(w, f, a), SamlPart(w, f, a));
  }

  lemma GroupsFromStages(w: World, f: Faults, a: Answers, v: Ran, r: Step, s: Step)
    requires Enters(w, f) && Met(w, f, s.p)
    requires r.p.w.dir == w.dir && forall e | e in r.p.log :: IsOAuth(e) || e.StatusSent?
    requires var t := if !PastOAuth(w, f) then r else if !PastSaml(w, f) then s else ReconcileCore(s.p, f, a);
             v == Ran(t.p.w, t.p.log, t.out)
    ensures var spec := w.stored.value.declared.spec;
            if PastSaml(w, f) then
              && v.w.dir == DirAfter(AppsMet(w, f), w.env, w.dir, spec, AfterSaml(w, f), f, a)
              && TellsJoin(v.log, AppsMet(w, f), w.env, w.dir, spec, AfterSaml(w, f), f)
            else v.w.dir == w.dir && forall e | e in v.log :: !e.GroupJoined?
  {
    if PastSaml(w, f) {
      var t, request := CoreWhole(w, f, a, s.p);
    }
  }

  /** Groups, and the administrator's way into them. */
  lemma GroupsAreTold(w: World, f: Faults, a: Answers)
    requires w.stored.Some?
    ensures var r, spec := Run(w, f, a), w.stored.value.declared.spec;
            if PastSaml(w, f) then
              && r.w.dir == DirAfter(AppsMet(w, f), w.env, w.dir, spec, AfterSaml(w, f), f, a)
              && TellsJoin(r.log, AppsMet(w, f), w.env, w.dir, spec, AfterSaml(w, f), f)
            else r.w.dir == w.dir && forall e | e in r.log :: !e.GroupJoined?
  {
    EntersExactly(w, f);
    if Enters(w, f) {
      RunIs(w, f, a);
      OAuthPartFrame(w, f, a);
      SamlPartIsMet(w, f, a);
      GroupsFromStages(w, f, a, Run(w, f, a), OAuthPart(w, f, a), SamlPart(w, f, a));
    } else {
      Safety.StopsShort(w, f, a);
    }
  }

  /** How a pass that enters ends: with a requeue, an error, a panic, or the zero result. */
  lemma OutcomeIsTold(w: World, f: Faults, a: Answers)
    requires Enters(w, f)
    ensures var d, st := w.stored.value.declared, w.stored.value.status;
            Run(w, f, a).out ==
            if PastSaml(w, f) then AppOutcome(AppsMet(w, f), w.env, w.dir, d.spec, AfterSaml(w, f), f)
            else if PastOAuth(w, f) then SamlEnd(w.env, w.saml, d, AfterOAuth(w, f), f)
            else OAuthOutcome(w.oauth, d, st, f)
  {
    RunIs(w, f, a);
    OAuthPartTold(w, f, a);
    SamlPartTold(w, f, a);
    if PastSaml(w, f) {
      SamlPartIsMet(w, f, a);
      var s, request := CoreWhole(w, f, a, SamlPart(w, f, a).p);
    }
  }

  // ---------------------------------------------------------------- passes that stop short

  function Paused(w: World, sp: SP, f: Faults): Ran {
    var st, fault := sp.status, At(f, PauseWrite);
    if st.phase.Paused? then Ran(w, [], Zero)
    else
      Ran(if fault.Applied()
          then w.(stored := Some(sp.(status := st.(phase := Phase.Paused))))
          else w,
          [StatusSent(PauseWrite, fault.Fine?)], if fault.Fine? then Zero else Error)
  }

  function Waiting(w: World, sp: SP, text: string, f: Faults): Ran {
    var st, fault := sp.status, At(f, InstanceStatus);
    if st.phase.Pending? && st.message == text then Ran(w, [], Requeue)
    else
      Ran(if fault.Applied()
          then w.(stored := Some(sp.(status := Status(st.id, st.resourceID, Pending, st.adminCanView, text)))) else w,
          [StatusSent(InstanceStatus, fault.Fine?)], if fault.Fine? then Requeue else Zero)
  }

  /** Only the operator's own finalizer goes, and the object only with the last one. */
  function Deleted(w: World, sp: SP, f: Faults): Ran {
    var name, rest := sp.declared.spec.name, set k | k in sp.finalizers && k != "wso2.it.auth.gr/sp-finalizer";
    Ran(w.(apps := if sp.status.resourceID != "" && At(f, RemoteDelete).Applied() then w.apps - {name} else w.apps,
           stored := if !At(f, FinalizerWrite).Applied() then w.stored
                     else if rest == {} then None else Some(sp.(finalizers := rest))),
        if sp.status.resourceID != "" then [AppDeleted(name)] else [],
        if At(f, FinalizerWrite).Fine? then Zero else Error)
  }

  function Guarded(w: World, sp: SP, f: Faults): Ran {
    Ran(if At(f, FinalizerWrite).Applied()
        then w.(stored := Some(sp.(finalizers := sp.finalizers + {"wso2.it.auth.gr/sp-finalizer"}))) else w,
        [], if At(f, FinalizerWrite).Fine? then Zero else Error)
  }

  lemma PausedIs(p: Pass, f: Faults)
    requires p.w.stored == Some(p.sp) && p.log == []
    ensures var s := PauseStep(p, f); Ran(s.p.w, s.p.log, s.out) == Paused(p.w, p.sp, f)
  {
  }

  lemma WaitingIs(p: Pass, text: string, f: Faults)
    requires p.w.stored == Some(p.sp) && p.log == []
    ensures var s := SetPhase(p, Pending, text, InstanceStatus, f);
            Ran(s.p.w, s.p.log, s.out) == Waiting(p.w, p.sp, text, f)
  {
  }

  lemma DeletedIs(p: Pass, f: Faults)
    requires p.w.stored == Some(p.sp) && p.log == [] && p.sp.declared.deleting
    ensures var s := HandleDelete(p, f); Ran(s.p.w, s.p.log, s.out) == Deleted(p.w, p.sp, f)
  {
    assert p.sp.finalizers - {SP_FINALIZER} == set k | k in p.sp.finalizers && k != "wso2.it.auth.gr/sp-finalizer";
    var q := p.w.(apps := if p.sp.status.resourceID != "" && At(f, RemoteDelete).Applied()
                          then p.w.apps - {p.sp.declared.spec.name} else p.w.apps);
    assert q.(stored := Some(p.sp)) == q;
  }

  lemma GuardedIs(p: Pass, f: Faults)
    requires p.w.stored == Some(p.sp) && p.log == []
    ensures var s := AddFinalizer(p, f); Ran(s.p.w, s.p.log, s.out) == Guarded(p.w, p.sp, f)
  {
  }

  /** A pass that does not enter, told in full: nothing but the object and, by a deletion, the application it named
      is touched; deletion leaves the finalizers of others alone. */
  lemma ShortIsTold(w: World, f: Faults, a: Answers)
    requires !Enters(w, f)
    ensures Run(w, f, a) ==
            if At(f, GetObject).Fail? then Ran(w, [], Error)
            else if w.stored.None? then Ran(w, [], Zero)
            else
              var sp := w.stored.value;
              var gate := GateText(w.env, sp.declared.spec, f);
              if SwitchedOff(sp.declared, "wso2.it.auth.gr/reconcile") then Paused(w, sp, f)
              else if gate.Some? then Waiting(w, sp, gate.value, f)
              else if sp.declared.deleting then Deleted(w, sp, f)
              else Guarded(w, sp, f)
  {
    EntersExactly(w, f);
    if At(f, GetObject).Fine? && w.stored.Some? {
      var p, gate := Safety.Start(w), GateText(w.env, w.stored.value.declared.spec, f);
      SwitchesAre(p.sp.declared);
      if SwitchedOff(p.sp.declared, "wso2.it.auth.gr/reconcile") {
        PausedIs(p, f);
      } else if gate.Some? {
        WaitingIs(p, gate.value, f);
      } else if p.sp.declared.deleting {
        DeletedIs(p, f);
      } else {
        GuardedIs(p, f);
      }
    }
  }

  // ---------------------------------------------------------------- the Secret

  /** The value of a key once the OAuth stage is through: a registered credential that is not blank, if the
      registration was read and the write took effect, else what was held before. */
  function ByOAuth(oauth: map<string, OAuthRecord>, d: Declared, f: Faults, key: string, held: string): string {
    if OAuthAsked(d, f) && d.spec.name in oauth && At(f, OAuthSecretGet).Fine? && At(f, OAuthSecretWrite).Applied() then
      var r := oauth[d.spec.name];
      if key == "client_id" && r.oauthConsumerKey != "" then r.oauthConsumerKey
      else if key == "client_secret" && r.oauthConsumerSecret != "" then r.oauthConsumerSecret
      else held
    else held
  }

  /** ... and once the SAML stage is. */
  function BySaml(
    saml: map<string, SAMLConfig>, env: Environment, d: Declared, f: Faults, key: string, held: string): string
  {
    var target := TargetOf(env, d, f);
    if target.Some? && At(f, SamlGet).Fine? && SamlRegistered(saml, target.value.entityID)
      && At(f, SamlSecretGet).Fine? && At(f, SamlSecretWrite).Applied()
    then
      var r := saml[target.value.entityID];
      if key == "saml_issuer" then r.issuer
      else if key == "saml_attrConsumingServiceIndex" && r.attributeConsumingServiceIndex != ""
      then r.attributeConsumingServiceIndex
      else held
    else held
  }

  function HeldAfter(w: World, f: Faults, key: string): string
    requires w.stored.Some?
  {
    var d, held := w.stored.value.declared, Held(w.secret, key);
    var mid := if Enters(w, f) then ByOAuth(w.oauth, d, f, key, held) else held;
    if PastOAuth(w, f) then BySaml(w.saml, w.env, d, f, key, mid) else mid
  }

  lemma UpsertedAny(secret: SecretData, kv: map<string, string>, key: string)
    ensures Held(Upserted(secret, kv), key) ==
            if key != "" && key in kv && kv[key] != "" then kv[key] else Held(secret, key)
  {
    assert key in NonBlank(kv) <==> key != "" && key in kv && kv[key] != "";
  }

  lemma OnceUpserted(secret: SecretData, history: seq<Secrets.Upsert>, kv: map<string, string>)
    ensures history == [] ==> Secrets.After(secret, history) == secret
    ensures history == [Secrets.Upsert(kv, true)] ==> Secrets.After(secret, history) == Upserted(secret, kv)
  {
    assert history == [Secrets.Upsert(kv, true)] ==> history[..0] == [];
  }

  lemma ByOAuthIs(secret: SecretData, oauth: map<string, OAuthRecord>, d: Declared, f: Faults, key: string)
    ensures Held(Secrets.After(secret, Credentials.OAuthStored(oauth, d, f)), key) ==
            ByOAuth(oauth, d, f, key, Held(secret, key))
  {
    SwitchesAre(d);
    if Credentials.OAuthAnswered(oauth, d, f) {
      var kv := OAuthKeys(Credentials.AnsweredOAuth(oauth, d, f));
      KeysDiffer();
      OnceUpserted(secret, Credentials.OAuthStored(oauth, d, f), kv);
      UpsertedAny(secret, kv, key);
      assert NonBlank(kv) == map[] ==> CLIENT_ID !in NonBlank(kv) && CLIENT_SECRET !in NonBlank(kv);
    }
  }

  lemma SamlAnsweredIs(saml: map<string, SAMLConfig>, env: Environment, d: Declared, f: Faults)
    ensures var target := TargetOf(env, d, f);
            && (Credentials.SamlAnswered(saml, env, d, f) <==>
                  target.Some? && At(f, SamlGet).Fine? && SamlRegistered(saml, target.value.entityID))
            && (Credentials.SamlAnswered(saml, env, d, f) ==>
                  Credentials.AnsweredSaml(saml, env, d, f) == saml[target.value.entityID])
  {
    SwitchesAre(d);
    if TargetOf(env, d, f).Some? {
      TargetIs(env, d, f);
    }
  }

  lemma BySamlIs(
    secret: SecretData, saml: map<string, SAMLConfig>, env: Environment, d: Declared, f: Faults, key: string)
    ensures Held(Secrets.After(secret, Credentials.SamlStored(saml, env, d, f)), key) ==
            BySaml(saml, env, d, f, key, Held(secret, key))
  {
    SamlAnsweredIs(saml, env, d, f);
    if Credentials.SamlAnswered(saml, env, d, f) {
      var kv := SamlKeys(Credentials.AnsweredSaml(saml, env, d, f));
      KeysDiffer();
      OnceUpserted(secret, Credentials.SamlStored(saml, env, d, f), kv);
      UpsertedAny(secret, kv, key);
      assert SAML_ISSUER in NonBlank(kv);
    }
  }

  /** The Secret, for every pass and every key: the non-blank credentials of the registrations read, under their
      own keys, where the writes took effect; everything else as it was. */
  lemma SecretIsTold(w: World, f: Faults, a: Answers, key: string)
    requires w.stored.Some?
    ensures Held(Run(w, f, a).w.secret, key) == HeldAfter(w, f, key)
  {
    EntersExactly(w, f);
    Safety.PassSecret(w, f, a);
    if Enters(w, f) {
      var p, d := Safety.Start(w), w.stored.value.declared;
      OAuthPartTold(w, f, a);
      ByOAuthIs(w.secret, w.oauth, d, f, key);
      var stored, later := Credentials.OAuthStored(w.oauth, d, f), Credentials.SamlStored(w.saml, w.env, d, f);
      if PastOAuth(w, f) {
        Secrets.AfterBoth(w.secret, stored, later);
        BySamlIs(Secrets.After(w.secret, stored), w.saml, w.env, d, f, key);
      } else {
        assert stored + [] == stored;
      }
    }
  }

  // ---------------------------------------------------------------- updates

  function Preferred(fresh_: string, held: string): string {
    if fresh_ != "" then fresh_ else held
  }

  /** The registration found under the metadata's entity ID, if it was asked for. */
  function SamlFound(w: World, f: Faults): Option<SAMLConfig>
    requires w.stored.Some?
  {
    var target := TargetOf(w.env, w.stored.value.declared, f);
    if target.Some? && At(f, SamlGet).Fine? && SamlRegistered(w.saml, target.value.entityID)
    then Some(w.saml[target.value.entityID]) else None
  }

  function OAuthFound(w: World, f: Faults): Option<OAuthRecord>
    requires w.stored.Some?
  {
    var d := w.stored.value.declared;
    if OAuthAsked(d, f) && d.spec.name in w.oauth then Some(w.oauth[d.spec.name]) else None
  }

  /** What every update of a pass carries for the declared kinds: what the registrations found say, else what the
      Secret held before. */
  function KeysSent(w: World, f: Faults): KeySet
    requires w.stored.Some?
  {
    var spec, oauth, saml := w.stored.value.declared.spec, OAuthFound(w, f), SamlFound(w, f);
    var r, s := oauth.UnwrapOr(NO_OAUTH), saml.UnwrapOr(BLANK_SAML);
    KeySet(
      if spec.oauth2.Some? then Preferred(r.oauthConsumerKey, Held(w.secret, "client_id")) else "",
      if spec.oauth2.Some? then Preferred(r.oauthConsumerSecret, Held(w.secret, "client_secret")) else "",
      if spec.saml.Some? then Preferred(s.issuer, Held(w.secret, "saml_issuer")) else "",
      if spec.saml.Some?
      then Preferred(s.attributeConsumingServiceIndex, Held(w.secret, "saml_attrConsumingServiceIndex")) else "")
  }

  const NO_OAUTH: OAuthRecord := OAuthRecord(0, "", [], false, "", "", "", "", false, false, 0, [], "", 0)

  lemma PastMeansTaken(w: World, f: Faults)
    requires PastOAuth(w, f)
    ensures OAuthFound(w, f).Some? ==> OAuthTaken(OAuthFound(w, f).value, f)
    ensures PastSaml(w, f) && SamlFound(w, f).Some? ==> SamlTaken(f)
  {
  }

  lemma HeldIsSent(w: World, f: Faults)
    requires PastSaml(w, f)
    ensures var oauth, saml := OAuthFound(w, f).UnwrapOr(NO_OAUTH), SamlFound(w, f).UnwrapOr(BLANK_SAML);
            && HeldAfter(w, f, "client_id") == Preferred(oauth.oauthConsumerKey, Held(w.secret, "client_id"))
            && HeldAfter(w, f, "client_secret") == Preferred(oauth.oauthConsumerSecret, Held(w.secret, "client_secret"))
            && HeldAfter(w, f, "saml_issuer") == Preferred(saml.issuer, Held(w.secret, "saml_issuer"))
            && HeldAfter(w, f, "saml_attrConsumingServiceIndex") ==
               Preferred(saml.attributeConsumingServiceIndex, Held(w.secret, "saml_attrConsumingServiceIndex"))
  {
    KeysDiffer();
    PastMeansTaken(w, f);
  }

  lemma KeysAreSent(w: World, f: Faults, a: Answers)
    requires PastSaml(w, f)
    ensures CredentialsIn(Run(w, f, a).w.secret, w.stored.value.declared.spec) == KeysSent(w, f)
  {
    SecretIsTold(w, f, a, "client_id");
    SecretIsTold(w, f, a, "client_secret");
    SecretIsTold(w, f, a, "saml_issuer");
    SecretIsTold(w, f, a, "saml_attrConsumingServiceIndex");
    HeldIsSent(w, f);
  }

  /** An update in the account of the application stage. */
  lemma UpdateInAccount(
    w: World, f: Faults, a: Answers, secret: SecretData, after: map<string, StoredApp>, log: seq<Event>,
    request: ServiceProviderRequest, e: Event)
    requires w.stored.Some? && e in log && e.AppUpdated?
    requires AppAccount(AppsMet(w, f), w.env, secret, w.stored.value.declared.spec, w.stored.value.status.id, f, a,
                        after, log, request)
    ensures var spec, id := w.stored.value.declared.spec, w.stored.value.status.id;
            && spec.name in w.apps && ScriptText(w.env, spec, f).Some?
            && RequestStates(e.request, spec, ScriptText(w.env, spec, f).value, id, CredentialsIn(secret, spec))
            && (At(f, AppUpdate).Applied() ==>
                  && spec.name in after
                  && after[spec.name] == StoredApp(w.apps[spec.name].id, w.apps[spec.name].resourceID, e.request))
  {
  }

  /** Every update that any pass sends, under any faults: it goes out for an application that was there, and says
      what the spec, the script, the identifier recorded before, and the keys of `KeysSent` say, field by field;
      if it takes effect, it is what is stored, under the identifiers the application had. */
  lemma UpdatesSayWhatIsDeclared(w: World, f: Faults, a: Answers, e: Event)
    requires w.stored.Some? && e in Run(w, f, a).log && e.AppUpdated?
    ensures var r, spec, id := Run(w, f, a), w.stored.value.declared.spec, w.stored.value.status.id;
            && PastSaml(w, f) && spec.name in w.apps && ScriptText(w.env, spec, f).Some?
            && RequestStates(e.request, spec, ScriptText(w.env, spec, f).value, id, KeysSent(w, f))
            && (At(f, AppUpdate).Applied() ==>
                  && spec.name in r.w.apps
                  && r.w.apps[spec.name] == StoredApp(w.apps[spec.name].id, w.apps[spec.name].resourceID, e.request))
  {
    EntersExactly(w, f);
    if Enters(w, f) {
      var r := Run(w, f, a);
      var request := AppsAreTold(w, f, a);
      if PastSaml(w, f) {
        UpdateInAccount(w, f, a, r.w.secret, r.w.apps, r.log, request, e);
        KeysAreSent(w, f, a);
      }
    } else {
      Safety.StopsShort(w, f, a);
    }
  }

  // ---------------------------------------------------------------- the object

  /** The persisted status once the OAuth stage is through, and once the SAML stage is. */
  function StoredAfterOAuth(w: World, f: Faults): Status
    requires w.stored.Some?
  {
    var st, failure := w.stored.value.status, OAuthFailure(w.oauth, w.stored.value.declared, f);
    if failure.Some? then Written(st, st, failure.value, OAuthStatus, f) else st
  }

  function StoredAfterSaml(w: World, f: Faults): Status
    requires w.stored.Some?
  {
    var problem := SamlProblem(w.env, w.saml, w.stored.value.declared, f);
    if problem.Some? then Written(StoredAfterOAuth(w, f), AfterOAuth(w, f), problem.value, SamlStatus, f)
    else StoredAfterOAuth(w, f)
  }

  /** A stage that touches the object only by reporting this failure. */
  lemma StageStores(p: Pass, q: Pass, s: Step, failed: bool, msg: string, site: Site, out: Outcome, f: Faults,
                    failure: Option<string>)
    requires p.w.stored.Some? && q.sp == p.sp && q.w.stored == p.w.stored
    requires s == if failed then SetPhase(q, Failed, msg, site, f) else Step(q, out)
    requires s.p.sp.status == Noted(p.sp.status, failure)
    ensures Stores(p.w, s.p.w, if failure.Some?
                               then Written(p.w.stored.value.status, p.sp.status, failure.value, site, f)
                               else p.w.stored.value.status)
  {
    if failed {
      SetPhaseStores(q, msg, site, f);
    }
  }

  lemma OAuthPartStores(w: World, f: Faults, a: Answers)
    requires w.stored.Some?
    ensures Stores(w, OAuthPart(w, f, a).p.w, StoredAfterOAuth(w, f))
  {
    OAuthPartTold(w, f, a);
    var p, s := Safety.Start(w), OAuthPart(w, f, a);
    var q, failed, msg := Shapes.OAuthShape(p, f, a);
    StageStores(p, q, s, failed, msg, OAuthStatus, s.out, f, OAuthFailure(w.oauth, w.stored.value.declared, f));
  }

  lemma SamlStageStores(p: Pass, f: Faults, a: Answers, failure: Option<string>)
    requires p.w.stored.Some? && (forall e | e in p.log :: !e.SamlRead?)
    requires SamlStage(p, f, a).p.sp.status == Noted(p.sp.status, failure)
    ensures Stores(p.w, SamlStage(p, f, a).p.w, if failure.Some?
                   then Written(p.w.stored.value.status, p.sp.status, failure.value, SamlStatus, f)
                   else p.w.stored.value.status)
  {
    var q, failed, msg := Shapes.SamlShape(p, f, a);
    StageStores(p, q, SamlStage(p, f, a), failed, msg, SamlStatus, SamlStage(p, f, a).out, f, failure);
  }

  lemma SamlStoresFrom(w: World, f: Faults, a: Answers, p: Pass)
    requires w.stored.Some? && MetBySaml(w, f, p) && Stores(w, p.w, StoredAfterOAuth(w, f))
    ensures Stores(w, SamlStage(p, f, a).p.w, StoredAfterSaml(w, f))
  {
    assert SamlStage(p, f, a).p.sp.status == AfterSaml(w, f) by { SamlToldFrom(w, f, a, p); }
    SamlStageStores(p, f, a, SamlProblem(w.env, w.saml, w.stored.value.declared, f));
  }

  lemma SamlPartStores(w: World, f: Faults, a: Answers)
    requires w.stored.Some?
    ensures Stores(w, SamlPart(w, f, a).p.w, StoredAfterSaml(w, f))
  {
    OAuthPartIsMet(w, f, a);
    OAuthPartStores(w, f, a);
    SamlStoresFrom(w, f, a, OAuthPart(w, f, a).p);
  }

  lemma LastPersists(w: World, f: Faults, a: Answers, p: Pass, q: Pass, s: Step) returns (after: Status)
    requires w.stored.Some? && Met(w, f, p) && Stores(w, p.w, StoredAfterSaml(w, f))
    requires AppFrame(p, q, f, a) && AppEnds(p, q, s, f)
    ensures Stores(w, s.p.w, after)
    ensures AppPersists(AppsMet(w, f), w.env, w.dir, w.stored.value.declared.spec, StoredAfterSaml(w, f),
                        AfterSaml(w, f), f, after)
  {
    EndsAreLast(p, q, s, f, a);
    var apps, spec := AppsMet(w, f), w.stored.value.declared.spec;
    after := LastStores(q, s, AfterSaml(w, f), AppFailure(apps, w.env, spec, f), spec.name !in apps,
                        spec.name in apps && CanBeRead(apps[spec.name].content.localOutbound.steps), f);
  }

  lemma CorePersists(w: World, f: Faults, a: Answers, p: Pass) returns (after: Status)
    requires w.stored.Some? && Met(w, f, p) && Stores(w, p.w, StoredAfterSaml(w, f))
    ensures Stores(w, ReconcileCore(p, f, a).p.w, after)
    ensures AppPersists(AppsMet(w, f), w.env, w.dir, w.stored.value.declared.spec, StoredAfterSaml(w, f),
                        AfterSaml(w, f), f, after)
  {
    var q := AppStageEnds(p, f, a);
    after := LastPersists(w, f, a, p, q, ReconcileCore(p, f, a));
  }

  /** The object after any pass that enters: only its status has changed, and it is exactly what was reported,
      noted or patched, given which of these writes took effect. */
  lemma StatusIsTold(w: World, f: Faults, a: Answers) returns (after: Status)
    requires Enters(w, f)
    ensures Stores(w, Run(w, f, a).w, after)
    ensures if PastSaml(w, f) then
              AppPersists(AppsMet(w, f), w.env, w.dir, w.stored.value.declared.spec, StoredAfterSaml(w, f),
                          AfterSaml(w, f), f, after)
            else after == if PastOAuth(w, f) then StoredAfterSaml(w, f) else StoredAfterOAuth(w, f)
  {
    RunIs(w, f, a);
    if !PastOAuth(w, f) {
      OAuthPartStores(w, f, a);
      after := StoredAfterOAuth(w, f);
    } else {
      SamlPartStores(w, f, a);
      after := StoredAfterSaml(w, f);
      if PastSaml(w, f) {
        SamlPartIsMet(w, f, a);
        after := CorePersists(w, f, a, SamlPart(w, f, a).p);
      }
    }
  }
}
