/** What holds of every single pass, whatever fails. */
module Safety {
  import opened Wrappers
  import opened Application
  import opened Credentials
  import opened World
  import opened Reconcile
  import opened Stages
  import Builder
  import Secrets
  import Shapes

  // ---------------------------------------------------------------- how far a pass gets

  /** The pass gets as far as the OAuth, SAML and application stages. */
  predicate Reaches(w: World, f: Faults) {
    && At(f, GetObject).Fine? && w.stored.Some?
    && var sp := w.stored.value;
       && !Skip(RECONCILE_APP, sp.declared.annotations) && GateError(w.env, sp.declared.spec, f).None?
       && !sp.declared.deleting && SP_FINALIZER in sp.finalizers
  }

  function Start(w: World): Pass
    requires w.stored.Some?
  {
    Pass(w, w.stored.value, [])
  }

  lemma Reached(w: World, f: Faults, a: Answers)
    requires Reaches(w, f)
    ensures var s := ReconcileApplication(Start(w), f, a); Run(w, f, a) == Ran(s.p.w, s.p.log, s.out)
  {
  }

  /** What an object may look like after a pass that stopped short: Paused only if it is, and Pending, with the
      reason, only if it is not and there is no client. */
  predicate ShortOf(env: Environment, f: Faults, sp: SP, sp': SP) {
    var paused, gate := Skip(RECONCILE_APP, sp.declared.annotations), GateError(env, sp.declared.spec, f);
    && sp'.declared == sp.declared
    && (|| sp'.status == sp.status
        || (paused && sp'.status == sp.status.(phase := Paused))
        || (!paused && gate.Some? && sp'.status == sp.status.(phase := Pending, message := gate.value)))
  }

  /** Nothing read from or upserted in WSO2; only the object and, by a deletion, the application may have changed. */
  predicate Short(w: World, f: Faults, r: Ran) {
    && r.w == w.(stored := r.w.stored, apps := r.w.apps)
    && (forall e | e in r.log :: e.StatusSent? || e.AppDeleted?)
    && (r.w.stored.Some? ==> w.stored.Some? && ShortOf(w.env, f, w.stored.value, r.w.stored.value))
  }

  lemma PauseIsShort(p: Pass, f: Faults)
    requires p.w.stored == Some(p.sp) && p.log == [] && Skip(RECONCILE_APP, p.sp.declared.annotations)
    ensures var s := PauseStep(p, f); Short(p.w, f, Ran(s.p.w, s.p.log, s.out))
  {
  }

  lemma GateIsShort(p: Pass, err: string, f: Faults)
    requires p.w.stored == Some(p.sp) && p.log == [] && !Skip(RECONCILE_APP, p.sp.declared.annotations)
    requires GateError(p.w.env, p.sp.declared.spec, f) == Some(err)
    ensures var s := SetPhase(p, Pending, err, InstanceStatus, f); Short(p.w, f, Ran(s.p.w, s.p.log, s.out))
  {
  }

  lemma DeleteIsShort(p: Pass, f: Faults)
    requires p.w.stored == Some(p.sp) && p.log == []
    ensures var s := HandleDelete(p, f); Short(p.w, f, Ran(s.p.w, s.p.log, s.out))
  {
  }

  lemma AddFinalizerIsShort(p: Pass, f: Faults)
    requires p.w.stored == Some(p.sp) && p.log == []
    ensures var s := AddFinalizer(p, f); Short(p.w, f, Ran(s.p.w, s.p.log, s.out))
  {
  }

  /** A pass that stops before those stages upserts nothing in WSO2, and touches only the object and,
      when it deletes, the application. */
  lemma StopsShort(w: World, f: Faults, a: Answers)
    requires !Reaches(w, f)
    ensures Short(w, f, Run(w, f, a))
  {
    if At(f, GetObject).Fine? && w.stored.Some? {
      var p, gate := Start(w), GateError(w.env, w.stored.value.declared.spec, f);
      if Skip(RECONCILE_APP, p.sp.declared.annotations) {
        PauseIsShort(p, f);
      } else if gate.Some? {
        GateIsShort(p, gate.value, f);
      } else if p.sp.declared.deleting {
        DeleteIsShort(p, f);
      } else {
        AddFinalizerIsShort(p, f);
      }
    }
  }

  // ---------------------------------------------------------------- what a pass never touches

  predicate SameDeclared(w: World, v: World) {
    && v.env == w.env
    && (v.stored.Some? ==> w.stored.Some? && v.stored.value.declared == w.stored.value.declared)
  }

  lemma ApplicationKeepsObject(w: World, f: Faults, a: Answers)
    requires w.stored.Some?
    ensures var v := ReconcileApplication(Start(w), f, a).p.w;
            v.env == w.env && v.stored.Some? && v.stored.value == w.stored.value.(status := v.stored.value.status)
  {
    var q := Prelude(Start(w), f, a);
    if Arrives(Start(w), f, a) {
      CoreKeepsObject(q, f, a);
    }
  }

  /** The user's side of the object and the environment are read-only for the operator. */
  lemma PassKeepsDeclared(w: World, f: Faults, a: Answers)
    ensures SameDeclared(w, Run(w, f, a).w)
  {
    if Reaches(w, f) {
      Reached(w, f, a);
      ApplicationKeepsObject(w, f, a);
    } else {
      StopsShort(w, f, a);
    }
  }

  // ---------------------------------------------------------------- guards

  /** A persisted finalizer, a Ready instance, no pause of the application, no deletion. */
  predicate MayUpsert(w: World) {
    && w.stored.Some?
    && var sp := w.stored.value;
       && SP_FINALIZER in sp.finalizers && InstanceReady(w.env, sp.declared.spec)
       && !Skip(RECONCILE_APP, sp.declared.annotations) && !sp.declared.deleting
  }

  /** Every create or update sent to WSO2 comes from a pass that found all of these. */
  lemma RemoteWritesAreGuarded(w: World, f: Faults, a: Answers)
    ensures (exists e | e in Run(w, f, a).log :: Upserts(e)) ==> MayUpsert(w)
  {
    if !Reaches(w, f) {
      StopsShort(w, f, a);
    }
  }

  predicate Holds(w: World) {
    w.stored.Some? && SP_FINALIZER in w.stored.value.finalizers
  }

  /** The pass removes the finalizer, and with it possibly the object. */
  predicate LetsGo(w: World, f: Faults, a: Answers) {
    Holds(w) && !Holds(Run(w, f, a).w)
  }

  /** The pass gets to handle the deletion. */
  predicate Deletes(w: World, f: Faults) {
    && At(f, GetObject).Fine? && w.stored.Some?
    && var sp := w.stored.value;
       && !Skip(RECONCILE_APP, sp.declared.annotations) && GateError(w.env, sp.declared.spec, f).None?
       && sp.declared.deleting
  }

  /** The finalizer only goes in a pass that handles the deletion. */
  lemma LettingGoDeletes(w: World, f: Faults, a: Answers)
    requires LetsGo(w, f, a)
    ensures Deletes(w, f)
  {
    if Reaches(w, f) {
      ApplicationKeepsObject(w, f, a);
    }
  }

  /** The finalizer only goes in a pass over a deleted, unpaused object that either sent the remote
      delete or had never recorded a remote identifier; and the application outlives that pass exactly
      when it existed and no remote delete took effect. */
  lemma FinalizerRemoval(w: World, f: Faults, a: Answers)
    requires LetsGo(w, f, a)
    ensures var sp, r := w.stored.value, Run(w, f, a);
            && sp.declared.deleting && !Skip(RECONCILE_APP, sp.declared.annotations)
            && InstanceReady(w.env, sp.declared.spec)
            && (AppDeleted(sp.declared.spec.name) in r.log || sp.status.resourceID == "")
            && (sp.declared.spec.name in r.w.apps <==>
                  sp.declared.spec.name in w.apps && (sp.status.resourceID == "" || !At(f, RemoteDelete).Applied()))
  {
    LettingGoDeletes(w, f, a);
  }

  /** Deleting an application whose identifiers were never recorded leaves it behind: nothing fails,
      the object is gone, and WSO2 keeps the application. */
  lemma EarlyDeletionOrphans(w: World, a: Answers)
    requires w.stored.Some?
    requires var sp := w.stored.value;
             && sp.declared.deleting && sp.finalizers == {SP_FINALIZER} && sp.status.resourceID == ""
             && !Skip(RECONCILE_APP, sp.declared.annotations) && InstanceReady(w.env, sp.declared.spec)
             && sp.declared.spec.name in w.apps
    ensures var r := Run(w, NO_FAULTS, a);
            r.w.stored.None? && r.out == Zero && r.w.apps == w.apps && r.log == []
  {
    assert w.stored.value.finalizers - {SP_FINALIZER} == {};
  }

  // ---------------------------------------------------------------- zero results

  /** Why a pass that stops short may end with the zero result, other than by a lost write. */
  predicate Rests(w: World, f: Faults) {
    || w.stored.None?
    || var sp := w.stored.value;
       if Skip(RECONCILE_APP, sp.declared.annotations) then sp.status.phase == Paused || At(f, PauseWrite).Fine?
       else
         && GateError(w.env, sp.declared.spec, f).None? && At(f, FinalizerWrite).Fine?
         && (sp.declared.deleting || SP_FINALIZER !in sp.finalizers)
  }

  lemma ApplicationZero(w: World, f: Faults, a: Answers)
    requires w.stored.Some?
    ensures var s := ReconcileApplication(Start(w), f, a); s.out.Zero? <==> !NoDirectLoss(s.p.log)
  {
    var q := Prelude(Start(w), f, a);
    if Arrives(Start(w), f, a) {
      CoreZero(q, f, a);
    }
  }

  lemma ShortZero(w: World, f: Faults, a: Answers)
    requires !Reaches(w, f) && At(f, GetObject).Fine?
    ensures var r := Run(w, f, a); r.out.Zero? <==> Rests(w, f) || !NoDirectLoss(r.log)
  {
    if w.stored.Some? {
      var p, gate := Start(w), GateError(w.env, w.stored.value.declared.spec, f);
      if !Skip(RECONCILE_APP, p.sp.declared.annotations) && gate.Some? {
        Shapes.SetPhaseShape(p, Pending, gate.value, InstanceStatus, f);
        if Run(w, f, a).out.Zero? {
          assert DirectLoss(Run(w, f, a).log[0]);
        }
      }
    }
  }

  /** No silent stall: exactly these passes end with the zero result and no error. The object is gone;
      or it is paused and says so; or the finalizer has just been added or removed; or a status write
      got lost in a setPhase called directly by Reconcile or reconcileApplication. A lost write of a
      sub-step is never the exit. */
  lemma NoSilentStall(w: World, f: Faults, a: Answers)
    ensures var r := Run(w, f, a);
            r.out.Zero? <==> At(f, GetObject).Fine? && ((!Reaches(w, f) && Rests(w, f)) || !NoDirectLoss(r.log))
  {
    if Reaches(w, f) {
      Reached(w, f, a);
      ApplicationZero(w, f, a);
    } else if At(f, GetObject).Fine? {
      ShortZero(w, f, a);
    }
  }

  // ---------------------------------------------------------------- pauses

  /** While the application is paused a pass changes nothing but the phase, once, even under deletion. */
  lemma PausedPass(w: World, f: Faults, a: Answers)
    requires w.stored.Some? && Skip(RECONCILE_APP, w.stored.value.declared.annotations)
    ensures var r, sp := Run(w, f, a), w.stored.value;
            && (r.w == w || (sp.status.phase != Paused &&
                             r.w == w.(stored := Some(sp.(status := sp.status.(phase := Paused))))))
            && forall e | e in r.log :: !Mutates(e)
  {
  }

  /** The effective Secret upserts of a pass, in order: at most one by OAuth and then one by SAML. */
  function PassUpserts(w: World, f: Faults, a: Answers): seq<Secrets.Upsert> {
    if Reaches(w, f) then StageUpserts(Start(w), f, a) else []
  }

  /** They are all that ever happens to the Secret. */
  lemma PassSecret(w: World, f: Faults, a: Answers)
    ensures Run(w, f, a).w.secret == Secrets.After(w.secret, PassUpserts(w, f, a))
  {
    if Reaches(w, f) {
      Reached(w, f, a);
      PreparedSecret(Start(w), f, a);
      ApplicationKeepsSecret(Start(w), f, a);
    } else {
      StopsShort(w, f, a);
    }
  }

  lemma ApplicationKeepsSecret(p: Pass, f: Faults, a: Answers)
    requires p.w.stored.Some? && p.log == []
    ensures var v := ReconcileApplication(p, f, a).p.w;
            v.secret == Prepared(p, f, a).w.secret && v.oauth == Prepared(p, f, a).w.oauth
              && v.saml == Prepared(p, f, a).w.saml
  {
    var q := Prelude(p, f, a);
    if Arrives(p, f, a) {
      CoreKeepsObject(q, f, a);
    }
  }

  /** An upsert of the OAuth stage: exactly the two credentials of the registration as it was before the pass,
      under their own keys, and the pass has read them from WSO2. */
  predicate OAuthGrounded(w: World, log: seq<Event>, u: Secrets.Upsert) {
    && w.stored.Some? && OAuthActive(w.stored.value.declared)
    && w.stored.value.declared.spec.name in w.oauth
    && var r := w.oauth[w.stored.value.declared.spec.name];
       && u.kv == map["client_id" := r.oauthConsumerKey, "client_secret" := r.oauthConsumerSecret]
       && OAuthRead(Some(r.oauthConsumerKey)) in log
  }

  /** An upsert of the SAML stage: issuer and index of the registration under the metadata's entity ID. */
  predicate SamlGrounded(w: World, log: seq<Event>, u: Secrets.Upsert) {
    && w.stored.Some? && SamlActive(w.stored.value.declared)
    && var url := w.stored.value.declared.spec.saml.value.metadataURL;
       && url in w.env.metadata && w.env.metadata[url].entityID in w.saml
       && var r := w.saml[w.env.metadata[url].entityID];
          && u.kv == map["saml_issuer" := r.issuer,
                         "saml_attrConsumingServiceIndex" := r.attributeConsumingServiceIndex]
          && r.issuer != "" && SamlRead(r.issuer) in log
  }

  /** Each of them is by a component that is followed, and stores what this same pass read from WSO2. */
  predicate Grounded(w: World, log: seq<Event>, u: Secrets.Upsert) {
    u.applied && (OAuthGrounded(w, log, u) || SamlGrounded(w, log, u))
  }

  lemma OAuthStoredGrounded(w: World, f: Faults, log: seq<Event>, u: Secrets.Upsert)
    requires w.stored.Some? && u in OAuthStored(w.oauth, w.stored.value.declared, f)
    requires Shapes.OAuthReads(w, w.stored.value.declared, f, log)
    ensures u.applied && OAuthGrounded(w, log, u)
  {
    KeysDiffer();
  }

  lemma SamlStoredGrounded(w: World, f: Faults, log: seq<Event>, u: Secrets.Upsert)
    requires w.stored.Some? && u in SamlStored(w.saml, w.env, w.stored.value.declared, f)
    requires Shapes.SamlReads(w, w.stored.value.declared, f, log)
    ensures u.applied && SamlGrounded(w, log, u)
  {
    KeysDiffer();
  }

  lemma StageUpsertsGrounded(w: World, f: Faults, a: Answers, u: Secrets.Upsert)
    requires w.stored.Some? && u in StageUpserts(Start(w), f, a)
    ensures Grounded(w, Prepared(Start(w), f, a).log, u)
  {
    PreparedReads(Start(w), f, a);
    if u in OAuthStored(w.oauth, w.stored.value.declared, f) {
      OAuthStoredGrounded(w, f, Prepared(Start(w), f, a).log, u);
    } else {
      SamlStoredGrounded(w, f, Prepared(Start(w), f, a).log, u);
    }
  }

  lemma PreludeLogKept(p: Pass, f: Faults, a: Answers, e: Event)
    requires p.w.stored.Some? && p.log == [] && e in Prepared(p, f, a).log
    ensures e in ReconcileApplication(p, f, a).p.log
  {
    var q := Prelude(p, f, a);
    if Arrives(p, f, a) {
      CoreGrows(q, f, a);
    }
  }

  lemma GroundedKept(w: World, before: seq<Event>, after: seq<Event>, u: Secrets.Upsert)
    requires Grounded(w, before, u) && forall e | e in before :: e in after
    ensures Grounded(w, after, u)
  {
  }

  lemma PassUpsertsGrounded(w: World, f: Faults, a: Answers, u: Secrets.Upsert)
    requires u in PassUpserts(w, f, a)
    ensures Grounded(w, Run(w, f, a).log, u)
  {
    Reached(w, f, a);
    StageUpsertsGrounded(w, f, a, u);
    forall e | e in Prepared(Start(w), f, a).log ensures e in Run(w, f, a).log {
      PreludeLogKept(Start(w), f, a, e);
    }
    GroundedKept(w, Prepared(Start(w), f, a).log, Run(w, f, a).log, u);
  }

  /** While OAuth is paused, or not declared, no pass touches OAuth registrations or OAuth keys. */
  lemma OAuthPausedPass(w: World, f: Faults, a: Answers)
    requires w.stored.Some? && !OAuthActive(w.stored.value.declared)
    ensures var v := Run(w, f, a).w;
            && v.oauth == w.oauth
            && Secrets.Get(v.secret, CLIENT_ID) == Secrets.Get(w.secret, CLIENT_ID)
            && Secrets.Get(v.secret, CLIENT_SECRET) == Secrets.Get(w.secret, CLIENT_SECRET)
  {
    PassSecret(w, f, a);
    if Reaches(w, f) {
      Reached(w, f, a);
      PreparedTracks(Start(w), f, a);
      ApplicationKeepsSecret(Start(w), f, a);
      OtherKeysKept(w.secret, w.stored.value.declared, w, f);
    } else {
      StopsShort(w, f, a);
    }
  }

  /** While SAML is paused, or has no metadata to follow, no pass touches SAML registrations or SAML keys. */
  lemma SamlPausedPass(w: World, f: Faults, a: Answers)
    requires w.stored.Some? && !SamlActive(w.stored.value.declared)
    ensures var v := Run(w, f, a).w;
            && v.saml == w.saml
            && Secrets.Get(v.secret, SAML_ISSUER) == Secrets.Get(w.secret, SAML_ISSUER)
            && Secrets.Get(v.secret, SAML_INDEX) == Secrets.Get(w.secret, SAML_INDEX)
  {
    PassSecret(w, f, a);
    if Reaches(w, f) {
      Reached(w, f, a);
      PreparedTracks(Start(w), f, a);
      ApplicationKeepsSecret(Start(w), f, a);
      OtherKeysKept(w.secret, w.stored.value.declared, w, f);
    } else {
      StopsShort(w, f, a);
    }
  }

  // ---------------------------------------------------------------- Ready

  lemma ReadySoundAfter(before: Status, mid: Status, after: Status, log: seq<Event>)
    requires mid == before || (mid.phase == Failed && SameIdentity(mid, before))
    requires ReadySound(mid, after, log)
    ensures ReadySound(before, after, log)
  {
  }

  lemma TrackedReady(p: Pass, q: Pass, f: Faults, a: Answers)
    requires Tracks(p, q) && p.w.stored == Some(p.sp) && ReadyMeansAdmin(p.sp.status)
    ensures var s := ReconcileCore(q, f, a);
            s.p.w.stored.Some? && ReadySound(p.sp.status, s.p.w.stored.value.status, s.p.log)
  {
    CoreReady(q, f, a);
    var s := ReconcileCore(q, f, a);
    ReadySoundAfter(p.sp.status, q.w.stored.value.status, s.p.w.stored.value.status, s.p.log);
  }

  lemma ApplicationReady(w: World, f: Faults, a: Answers)
    requires w.stored.Some? && ReadyMeansAdmin(w.stored.value.status)
    ensures var s := ReconcileApplication(Start(w), f, a);
            s.p.w.stored.Some? && ReadySound(w.stored.value.status, s.p.w.stored.value.status, s.p.log)
  {
    var q := Prelude(Start(w), f, a);
    if Arrives(Start(w), f, a) {
      TrackedReady(Start(w), q, f, a);
    }
  }

  /** One pass keeps "Ready implies admin access", never takes admin access back, and a Ready status it
      leaves behind is the old one or carries the identifiers it read from WSO2 itself. */
  lemma PassReady(w: World, f: Faults, a: Answers)
    requires w.stored.Some? && ReadyMeansAdmin(w.stored.value.status)
    ensures var r := Run(w, f, a);
            r.w.stored.Some? ==> ReadySound(w.stored.value.status, r.w.stored.value.status, r.log)
  {
    if Reaches(w, f) {
      Reached(w, f, a);
      ApplicationReady(w, f, a);
    } else {
      StopsShort(w, f, a);
    }
  }

  lemma ApplicationFlag(w: World, f: Faults, a: Answers)
    requires w.stored.Some?
    ensures var v, sp := ReconcileApplication(Start(w), f, a).p.w, w.stored.value;
            v.stored.Some? && FlagEarned(sp.status, w.dir, sp.declared.spec.name, v.stored.value.status)
  {
    var q := Prelude(Start(w), f, a);
    if Arrives(Start(w), f, a) {
      CoreFlag(q, f, a);
    }
  }

  /** Admin access is confirmed, never assumed: a pass records it only if the administrator was a member
      of the application's group before the pass; the pass that joins them does not. */
  lemma AdminAccessIsConfirmed(w: World, f: Faults, a: Answers)
    requires w.stored.Some?
    ensures var v, sp := Run(w, f, a).w, w.stored.value;
            v.stored.Some? ==> FlagEarned(sp.status, w.dir, sp.declared.spec.name, v.stored.value.status)
  {
    if Reaches(w, f) {
      Reached(w, f, a);
      ApplicationFlag(w, f, a);
    } else {
      StopsShort(w, f, a);
    }
  }

  // ---------------------------------------------------------------- inbound keys, end to end

  /** The request carries the consumer key this journal says was read, unless that is blank. */
  predicate OAuthMatches(log: seq<Event>, request: ServiceProviderRequest) {
    && (exists e :: e in log && e.OAuthRead?)
    && forall e | e in log && e.OAuthRead? ::
         e.found.Some? && (e.found.value != "" ==> CarriesKey(request, Builder.OAUTH2_TYPE, e.found.value))
  }

  /** The request carries the issuer this journal says was found registered. */
  predicate SamlMatches(log: seq<Event>, request: ServiceProviderRequest) {
    && (exists e :: e in log && e.SamlRead?)
    && forall e | e in log && e.SamlRead? :: e.issuer != "" && CarriesKey(request, Builder.SAML_TYPE, e.issuer)
  }

  /** What holds of one update sent in a pass over `w`: its keys as a function of world and faults, and
      exactly when they are the ones the pass has read. */
  predicate KeysExact(w: World, d: Declared, f: Faults, log: seq<Event>, request: ServiceProviderRequest) {
    && (d.spec.oauth2.Some? ==> CarriesKey(request, Builder.OAUTH2_TYPE, KeySent(w, d, f)))
    && (d.spec.saml.Some? ==> CarriesKey(request, Builder.SAML_TYPE, IssuerSent(w, d, f)))
    && (OAuthActive(d) ==> (OAuthMatches(log, request) <==> At(f, OAuthGet).Fine? && d.spec.name in w.oauth))
    && (SamlActive(d) ==> (SamlMatches(log, request) <==> SamlAnswered(w.saml, w.env, d, f)))
    && (NoLostWrite(log) ==>
          && (OAuthActive(d) ==> OAuthAnswered(w.oauth, d, f)) && (SamlActive(d) ==> SamlAnswered(w.saml, w.env, d, f)))
  }

  lemma PreparedKeysGoOut(w: World, d: Declared, f: Faults, q: Pass, log: seq<Event>, request: ServiceProviderRequest)
    requires KeysPrepared(w, d, f, q) && q.sp.declared == d && Shapes.SentFor(q, request)
    requires CoreGrowth(q.log, log) && (OAuthActive(d) ==> At(f, OAuthTransport).Fine?)
    ensures KeysExact(w, d, f, log, request)
  {
    SentKeysAreTheSecrets(q, request);
    assert forall e: Event | e.OAuthRead? || e.SamlRead? :: e in log <==> e in q.log;
    assert NoLostWrite(log) ==> NoLostWrite(q.log);
    OAuthMatchExactly(w, d, f, log, request);
    SamlMatchExactly(w, d, f, log, request);
  }

  lemma OAuthMatchExactly(w: World, d: Declared, f: Faults, log: seq<Event>, request: ServiceProviderRequest)
    requires Shapes.OAuthReads(w, d, f, log) && (OAuthActive(d) ==> At(f, OAuthTransport).Fine?)
    requires d.spec.oauth2.Some? ==> CarriesKey(request, Builder.OAUTH2_TYPE, KeySent(w, d, f))
    ensures OAuthActive(d) ==> (OAuthMatches(log, request) <==> At(f, OAuthGet).Fine? && d.spec.name in w.oauth)
  {
  }

  lemma SamlMatchExactly(w: World, d: Declared, f: Faults, log: seq<Event>, request: ServiceProviderRequest)
    requires Shapes.SamlReads(w, d, f, log)
    requires d.spec.saml.Some? ==> CarriesKey(request, Builder.SAML_TYPE, IssuerSent(w, d, f))
    ensures SamlActive(d) ==> (SamlMatches(log, request) <==> SamlAnswered(w.saml, w.env, d, f))
  {
  }

  lemma ApplicationSendsKeys(w: World, f: Faults, a: Answers)
    requires w.stored.Some?
    ensures var log := ReconcileApplication(Start(w), f, a).p.log;
            forall e | e in log && e.AppUpdated? :: KeysExact(w, w.stored.value.declared, f, log, e.request)
  {
    var q := Prelude(Start(w), f, a);
    if Arrives(Start(w), f, a) {
      PreparedKeys(Start(w), f, a);
      CoreGrows(q, f, a);
      CoreSends(q, f, a);
      var log := ReconcileCore(q, f, a).p.log;
      forall e | e in log && e.AppUpdated? ensures KeysExact(w, w.stored.value.declared, f, log, e.request) {
        PreparedKeysGoOut(w, w.stored.value.declared, f, q, log, e.request);
      }
    }
  }

  /** End to end, for any faults: every update a pass sends carries as inbound key of a declared kind the
      key this pass read from WSO2, else the one the Secret held before. It is the one just read if and
      only if the registration was asked for without a fault and is there; for that no status write need
      succeed, and no other fault matters. */
  lemma InboundKeysExactly(w: World, f: Faults, a: Answers)
    requires w.stored.Some?
    ensures var log := Run(w, f, a).log;
            forall e | e in log && e.AppUpdated? :: KeysExact(w, w.stored.value.declared, f, log, e.request)
  {
    if Reaches(w, f) {
      Reached(w, f, a);
      ApplicationSendsKeys(w, f, a);
    } else {
      StopsShort(w, f, a);
    }
  }

  /** In particular, a pass that loses no status write sends what it read. */
  lemma InboundKeysEndToEnd(w: World, f: Faults, a: Answers)
    requires w.stored.Some?
    ensures var d, log := w.stored.value.declared, Run(w, f, a).log;
            NoLostWrite(log) ==>
              forall e | e in log && e.AppUpdated? ::
                && (OAuthActive(d) ==> OAuthMatches(log, e.request))
                && (SamlActive(d) ==> SamlMatches(log, e.request))
  {
    InboundKeysExactly(w, f, a);
  }
}
