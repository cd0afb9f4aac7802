/** What holds of the stages of a pass put together, whatever fails. */
module Stages {
  import opened Wrappers
  import opened Application
  import opened Credentials
  import opened World
  import opened Reconcile
  import opened Shapes
  import Builder
  import Convergence
  import Secrets

  // ---------------------------------------------------------------- the stages before the application

  predicate SameIdentity(a: Status, b: Status) {
    a.id == b.id && a.resourceID == b.resourceID && a.adminCanView == b.adminCanView
  }

  /** How a pass may have moved the object while in its OAuth and SAML stages: statuses only ever turn Failed. */
  predicate Tracks(p: Pass, q: Pass) {
    && q.sp == p.sp.(status := q.sp.status)
    && SameIdentity(q.sp.status, p.sp.status)
    && (q.sp.status == p.sp.status || q.sp.status.phase == Failed)
    && p.w.stored.Some? && q.w.stored.Some?
    && q.w.stored.value == p.w.stored.value.(status := q.w.stored.value.status)
    && (q.w.stored.value.status == p.w.stored.value.status
        || (q.w.stored.value.status.phase == Failed && SameIdentity(q.w.stored.value.status, p.sp.status)
            && q.sp.status.phase == Failed))
    && q.w.env == p.w.env && q.w.dir == p.w.dir
  }

  lemma TracksTransitive(p: Pass, q: Pass, r: Pass)
    requires Tracks(p, q) && Tracks(q, r)
    ensures Tracks(p, r)
  {
  }

  /** What is new in the journal belongs to one part, or is a status write from one place. */
  predicate Confined(before: seq<Event>, after: seq<Event>, part: Part, site: Site) {
    && (forall e | e in before :: e in after)
    && (forall e | e in after :: e in before || PartOf(e) == part || (e.StatusSent? && e.site == site))
  }

  predicate NoLostWrite(log: seq<Event>) {
    forall e | e in log :: e.StatusSent? ==> e.ok
  }

  /** A stage that changes no object, and then possibly records a failure. */
  lemma RecordedTracks(p: Pass, q: Pass, failed: bool, msg: string, part: Part, site: Site, out: Outcome, f: Faults)
    returns (s: Step)
    requires p.w.stored.Some? && q.sp == p.sp && q.w.stored == p.w.stored && q.w.env == p.w.env && q.w.dir == p.w.dir
    requires Grown(p.log, q.log, part)
    ensures s == if failed then SetPhase(q, Failed, msg, site, f) else Step(q, out)
    ensures Tracks(p, s.p) && s.p.w == q.w.(stored := s.p.w.stored)
    ensures Confined(p.log, s.p.log, part, site)
    ensures forall e | e in q.log :: e in s.p.log
    ensures failed && s.out == Zero ==> !NoLostWrite(s.p.log)
  {
    s := if failed then SetPhase(q, Failed, msg, site, f) else Step(q, out);
    if failed {
      SetPhaseShape(q, Failed, msg, site, f);
      if s.out == Zero {
        assert s.p.log[|q.log|] == StatusSent(site, false);
      }
    }
  }

  lemma OAuthTracks(p: Pass, f: Faults, a: Answers) returns (s: Step)
    requires p.w.stored.Some? && p.log == []
    ensures s == OAuthStage(p, f, a)
    ensures Tracks(p, s.p) && Confined(p.log, s.p.log, OAuthPart, OAuthStatus)
    ensures s.p.w == p.w.(stored := s.p.w.stored, oauth := s.p.w.oauth,
                          secret := Secrets.After(p.w.secret, OAuthStored(p.w.oauth, p.sp.declared, f)))
    ensures !OAuthActive(p.sp.declared) ==> s.p.w.oauth == p.w.oauth
    ensures OAuthReads(p.w, p.sp.declared, f, s.p.log)
    ensures s.out == Zero ==> Secrets.Get(s.p.w.secret, CLIENT_ID) == KeySent(p.w, p.sp.declared, f)
    ensures OAuthActive(p.sp.declared) && s.out == Zero && NoLostWrite(s.p.log) ==>
        OAuthAnswered(p.w.oauth, p.sp.declared, f)
  {
    var q, failed, msg := OAuthShape(p, f, a);
    s := RecordedTracks(p, q, failed, msg, OAuthPart, OAuthStatus, OAuthStage(p, f, a).out, f);
  }

  lemma SamlTracks(p: Pass, f: Faults, a: Answers) returns (s: Step)
    requires p.w.stored.Some? && forall e | e in p.log :: !e.SamlRead?
    ensures s == SamlStage(p, f, a)
    ensures Tracks(p, s.p) && Confined(p.log, s.p.log, SamlPart, SamlStatus)
    ensures s.p.w == p.w.(stored := s.p.w.stored, saml := s.p.w.saml, apps := s.p.w.apps,
                          secret := Secrets.After(p.w.secret, SamlStored(p.w.saml, p.w.env, p.sp.declared, f)))
    ensures !SamlActive(p.sp.declared) ==> s.p.w.saml == p.w.saml
    ensures SamlReads(p.w, p.sp.declared, f, s.p.log)
    ensures s.out == Zero ==> Secrets.Get(s.p.w.secret, SAML_ISSUER) == IssuerSent(p.w, p.sp.declared, f)
    ensures SamlActive(p.sp.declared) && s.out == Zero && NoLostWrite(s.p.log) ==>
              SamlAnswered(p.w.saml, p.w.env, p.sp.declared, f)
  {
    var q, failed, msg := SamlShape(p, f, a);
    s := RecordedTracks(p, q, failed, msg, SamlPart, SamlStatus, SamlStage(p, f, a).out, f);
  }

  /** Direct calls of setPhase: their zero result is returned by the pass itself. */
  predicate DirectLoss(e: Event) {
    e == StatusSent(InstanceStatus, false) || e == StatusSent(AppStatus, false)
  }

  predicate NoDirectLoss(log: seq<Event>) {
    forall i | 0 <= i < |log| :: !DirectLoss(log[i])
  }

  /** What the Secret holds and the journal tells once the application stage is reached. */
  predicate KeysPrepared(w: World, d: Declared, f: Faults, q: Pass) {
    && Secrets.Get(q.w.secret, CLIENT_ID) == KeySent(w, d, f)
    && Secrets.Get(q.w.secret, SAML_ISSUER) == IssuerSent(w, d, f)
    && OAuthReads(w, d, f, q.log) && SamlReads(w, d, f, q.log)
    && (NoLostWrite(q.log) ==>
          && (OAuthActive(d) ==> OAuthAnswered(w.oauth, d, f))
          && (SamlActive(d) ==> SamlAnswered(w.saml, w.env, d, f)))
  }

  lemma OtherKeysKept(secret: SecretData, d: Declared, w: World, f: Faults)
    ensures Secrets.Get(Secrets.After(secret, OAuthStored(w.oauth, d, f)), SAML_ISSUER) ==
        Secrets.Get(secret, SAML_ISSUER)
    ensures Secrets.Get(Secrets.After(secret, OAuthStored(w.oauth, d, f)), SAML_INDEX) ==
        Secrets.Get(secret, SAML_INDEX)
    ensures Secrets.Get(Secrets.After(secret, SamlStored(w.saml, w.env, d, f)), CLIENT_ID) ==
        Secrets.Get(secret, CLIENT_ID)
    ensures Secrets.Get(Secrets.After(secret, SamlStored(w.saml, w.env, d, f)), CLIENT_SECRET)
         == Secrets.Get(secret, CLIENT_SECRET)
  {
    KeysDiffer();
    if OAuthStored(w.oauth, d, f) != [] {
      var kv := OAuthKeys(AnsweredOAuth(w.oauth, d, f));
      Secrets.UpsertedValue(secret, kv, SAML_ISSUER);
      Secrets.UpsertedValue(secret, kv, SAML_INDEX);
    }
    if SamlStored(w.saml, w.env, d, f) != [] {
      var kv := SamlKeys(AnsweredSaml(w.saml, w.env, d, f));
      Secrets.UpsertedValue(secret, kv, CLIENT_ID);
      Secrets.UpsertedValue(secret, kv, CLIENT_SECRET);
    }
  }

  lemma ConfinedTwice(l1: seq<Event>, l2: seq<Event>)
    requires Confined([], l1, OAuthPart, OAuthStatus) && Confined(l1, l2, SamlPart, SamlStatus)
    ensures NoDirectLoss(l1) && forall e | e in l1 :: !e.AppUpdated? && !e.SamlRead? && !e.AppDeleted?
    ensures NoDirectLoss(l2) && forall e | e in l2 :: !e.AppUpdated?
    ensures forall e: Event | e.OAuthRead? :: e in l2 <==> e in l1
    ensures NoLostWrite(l2) ==> NoLostWrite(l1)
  {
  }

  /** The pass has come as far as the application stage. */
  predicate Arrives(p: Pass, f: Faults, a: Answers) {
    OAuthStage(p, f, a).out.Zero? && SamlStage(OAuthStage(p, f, a).p, f, a).out.Zero?
  }

  /** The effective upserts of a pass, in order. */
  function StageUpserts(p: Pass, f: Faults, a: Answers): seq<Secrets.Upsert> {
    OAuthStored(p.w.oauth, p.sp.declared, f) +
    if OAuthStage(p, f, a).out.Zero? then SamlStored(p.w.saml, p.w.env, p.sp.declared, f) else []
  }

  lemma ReadsCarryOver(w: World, w1: World, d: Declared, f: Faults, l1: seq<Event>, l2: seq<Event>)
    requires OAuthReads(w, d, f, l1) && forall e: Event | e.OAuthRead? :: e in l2 <==> e in l1
    requires SamlReads(w1, d, f, l2) && w1.saml == w.saml && w1.env == w.env
    ensures OAuthReads(w, d, f, l2) && SamlReads(w, d, f, l2)
  {
  }

  /** From the two stages' own guarantees to those at the application stage. */
  lemma BothPrepare(w: World, d: Declared, f: Faults, p1: Pass, q: Pass)
    requires p1.w.saml == w.saml && p1.w.env == w.env
    requires p1.w.secret == Secrets.After(w.secret, OAuthStored(w.oauth, d, f))
    requires q.w.secret == Secrets.After(p1.w.secret, SamlStored(w.saml, w.env, d, f))
    requires Secrets.Get(p1.w.secret, CLIENT_ID) == KeySent(w, d, f)
    requires Secrets.Get(q.w.secret, SAML_ISSUER) == IssuerSent(p1.w, d, f)
    requires OAuthReads(w, d, f, q.log) && SamlReads(w, d, f, q.log)
    requires NoLostWrite(q.log) ==> NoLostWrite(p1.log)
    requires OAuthActive(d) && NoLostWrite(p1.log) ==> OAuthAnswered(w.oauth, d, f)
    requires SamlActive(d) && NoLostWrite(q.log) ==> SamlAnswered(w.saml, w.env, d, f)
    ensures KeysPrepared(w, d, f, q)
  {
    OtherKeysKept(w.secret, d, w, f);
    OtherKeysKept(p1.w.secret, d, w, f);
  }

  /** The pass when it comes to the application stage, or where it stopped short of it. */
  function Prepared(p: Pass, f: Faults, a: Answers): Pass {
    var s := OAuthStage(p, f, a);
    if s.out.Zero? then SamlStage(s.p, f, a).p else s.p
  }

  /** By then the object has only been tracked, and nothing happened that belongs to later stages. */
  lemma PreparedTracks(p: Pass, f: Faults, a: Answers)
    requires p.w.stored.Some? && p.log == []
    ensures var q := Prepared(p, f, a);
            && Tracks(p, q) && NoDirectLoss(q.log) && (forall e | e in q.log :: !e.AppUpdated?)
            && (!OAuthActive(p.sp.declared) ==> q.w.oauth == p.w.oauth)
            && (!SamlActive(p.sp.declared) ==> q.w.saml == p.w.saml)
  {
    var s := OAuthTracks(p, f, a);
    ConfinedTwice(s.p.log, s.p.log);
    if s.out.Zero? {
      var t := SamlTracks(s.p, f, a);
      TracksTransitive(p, s.p, t.p);
      ConfinedTwice(s.p.log, t.p.log);
    }
  }

  /** By then the Secret has had the effective upserts of both stages. */
  lemma PreparedSecret(p: Pass, f: Faults, a: Answers)
    requires p.w.stored.Some? && p.log == []
    ensures Prepared(p, f, a).w.secret == Secrets.After(p.w.secret, StageUpserts(p, f, a))
  {
    var s := OAuthTracks(p, f, a);
    ConfinedTwice(s.p.log, s.p.log);
    var d := p.sp.declared;
    if s.out.Zero? {
      var t := SamlTracks(s.p, f, a);
      Secrets.AfterBoth(p.w.secret, OAuthStored(p.w.oauth, d, f), SamlStored(p.w.saml, p.w.env, d, f));
    } else {
      assert StageUpserts(p, f, a) == OAuthStored(p.w.oauth, d, f);
    }
  }

  /** By then the journal tells what the registrations say. */
  lemma PreparedReads(p: Pass, f: Faults, a: Answers)
    requires p.w.stored.Some? && p.log == []
    ensures var q, d := Prepared(p, f, a), p.sp.declared;
            OAuthReads(p.w, d, f, q.log) && (OAuthStage(p, f, a).out.Zero? ==> SamlReads(p.w, d, f, q.log))
  {
    var s := OAuthTracks(p, f, a);
    ConfinedTwice(s.p.log, s.p.log);
    if s.out.Zero? {
      var t := SamlTracks(s.p, f, a);
      ConfinedTwice(s.p.log, t.p.log);
      ReadsCarryOver(p.w, s.p.w, p.sp.declared, f, s.p.log, t.p.log);
    }
  }

  lemma PreparedKeys(p: Pass, f: Faults, a: Answers)
    requires p.w.stored.Some? && p.log == [] && Arrives(p, f, a)
    ensures KeysPrepared(p.w, p.sp.declared, f, Prepared(p, f, a))
  {
    PreparedReads(p, f, a);
    var s := OAuthTracks(p, f, a);
    ConfinedTwice(s.p.log, s.p.log);
    var t := SamlTracks(s.p, f, a);
    ConfinedTwice(s.p.log, t.p.log);
    BothPrepare(p.w, p.sp.declared, f, s.p, t.p);
  }

  /** Everything a pass can have done before it reaches the application stage, or stops short of it. */
  lemma Prelude(p: Pass, f: Faults, a: Answers) returns (q: Pass)
    requires p.w.stored.Some? && p.log == []
    ensures q == Prepared(p, f, a)
    ensures var s := ReconcileApplication(p, f, a);
            if Arrives(p, f, a) then s == ReconcileCore(q, f, a) else s.p == q && s.out != Zero
    ensures Tracks(p, q) && NoDirectLoss(q.log) && (forall e | e in q.log :: !e.AppUpdated?)
  {
    PreparedTracks(p, f, a);
    q := Prepared(p, f, a);
  }

  // ---------------------------------------------------------------- the application stage

  /** The tail of a pass never ends it with the zero result. */
  lemma FinishZero(p: Pass, base: Status, resourceID: string, f: Faults)
    requires p.w.stored.Some? && NoDirectLoss(p.log)
    ensures var s := Finish(p, base, resourceID, f); !s.out.Zero? && NoDirectLoss(s.p.log)
  {
    var q, failed, msg, patched := FinishShape(p, base, resourceID, f);
    NoDirectLossGrows(p.log, q.log);
    var r := if failed then SetPhase(q, Failed, msg, AdminStatus, f) else Step(q, Zero);
    assert NoDirectLoss(r.p.log) by {
      if failed {
        SetPhaseShape(q, Failed, msg, AdminStatus, f);
        NoDirectLossExtends(q.log, AdminStatus, r.out == Requeue);
      }
    }
    NoDirectLossExtends(r.p.log, ReadyPatch, At(f, ReadyPatch).Fine?);
  }

  lemma NoDirectLossExtends(log: seq<Event>, site: Site, ok: bool)
    requires NoDirectLoss(log) && site != AppStatus && site != InstanceStatus
    ensures NoDirectLoss(log + [StatusSent(site, ok)])
  {
  }

  lemma RecordedZero(p: Pass, msg: string, f: Faults)
    requires p.w.stored.Some? && NoDirectLoss(p.log)
    ensures var s := SetPhase(p, Failed, msg, AppStatus, f); s.out.Zero? <==> !NoDirectLoss(s.p.log)
  {
    SetPhaseShape(p, Failed, msg, AppStatus, f);
    if SetPhase(p, Failed, msg, AppStatus, f).out.Zero? {
      assert DirectLoss(SetPhase(p, Failed, msg, AppStatus, f).p.log[|p.log|]);
    }
  }

  lemma NoDirectLossGrows(before: seq<Event>, after: seq<Event>)
    requires NoDirectLoss(before) && Grown(before, after, AppPart)
    ensures NoDirectLoss(after)
  {
  }

  /** The application stage ends with the zero result exactly when its own failure report got lost. */
  lemma CoreZero(p: Pass, f: Faults, a: Answers)
    requires p.w.stored.Some? && NoDirectLoss(p.log)
    ensures var s := ReconcileCore(p, f, a); s.out.Zero? <==> !NoDirectLoss(s.p.log)
  {
    var q, ending := CoreShape(p, f, a);
    NoDirectLossGrows(p.log, q.log);
    if ending.Recorded? {
      RecordedZero(q, ending.msg, f);
    } else if ending.Finished? {
      FinishZero(q, p.sp.status, ending.resourceID, f);
    }
  }

  /** Seen from the object, only its status moves; of the rest, applications and groups. */
  predicate StatusOnly(w: World, v: World) {
    && w.stored.Some? && v.stored.Some?
    && v.stored.value == w.stored.value.(status := v.stored.value.status)
    && v == w.(apps := v.apps, dir := v.dir, stored := v.stored)
  }

  lemma FinishKeepsObject(p: Pass, base: Status, resourceID: string, f: Faults)
    requires p.w.stored.Some?
    ensures StatusOnly(p.w, Finish(p, base, resourceID, f).p.w)
  {
    var q, failed, msg, patched := FinishShape(p, base, resourceID, f);
    if failed {
      SetPhaseShape(q, Failed, msg, AdminStatus, f);
    }
  }

  lemma CoreKeepsObject(p: Pass, f: Faults, a: Answers)
    requires p.w.stored.Some?
    ensures StatusOnly(p.w, ReconcileCore(p, f, a).p.w)
  {
    var q, ending := CoreShape(p, f, a);
    if ending.Recorded? {
      SetPhaseShape(q, Failed, ending.msg, AppStatus, f);
    } else if ending.Finished? {
      FinishKeepsObject(q, p.sp.status, ending.resourceID, f);
    }
  }

  // ---------------------------------------------------------------- Ready

  predicate ReadyMeansAdmin(st: Status) {
    st.phase == Ready ==> st.adminCanView
  }

  /** The pass with this journal read these identifiers and then sent a Ready status. */
  predicate ReadyWritten(log: seq<Event>, st: Status) {
    && AppRead(Some((st.id, st.resourceID))) in log
    && (StatusSent(ReadyPatch, true) in log || StatusSent(ReadyPatch, false) in log)
  }

  /** Whatever becomes of the status: the flag never falls, Ready implies it, and a Ready status that
      is not the old one carries the identifiers just read. */
  predicate ReadySound(before: Status, after: Status, log: seq<Event>) {
    && (before.adminCanView ==> after.adminCanView)
    && ReadyMeansAdmin(after)
    && (after.phase == Ready ==> after == before || ReadyWritten(log, after))
  }

  /** What the last patch of a pass can leave behind; `mid` is what is persisted just before it. */
  lemma PatchSound(before: Status, mid: Status, base: Status, target: Status, applied: bool, log: seq<Event>)
    requires SameIdentity(before, base) && ReadyMeansAdmin(before)
    requires mid == before || (mid == target && target.phase == Failed)
    requires base.adminCanView ==> target.adminCanView && target.phase == Ready
    requires target.phase == Ready ==> target.adminCanView
    requires target.phase == Ready || target.phase == Failed
    requires ReadyWritten(log, target)
    ensures ReadySound(before, if applied then MergePatch(mid, base, target) else mid, log)
  {
  }

  lemma FinishReady(q: Pass, base: Status, id: int, resourceID: string, f: Faults)
    requires q.w.stored.Some? && SameIdentity(q.w.stored.value.status, base) && ReadyMeansAdmin(q.w.stored.value.status)
    requires q.sp.status == base.(id := id, resourceID := resourceID)
    requires AppRead(Some((id, resourceID))) in q.log
    ensures var s, before := Finish(q, base, resourceID, f), q.w.stored.value.status;
            s.p.w.stored.Some? && ReadySound(before, s.p.w.stored.value.status, s.p.log)
  {
    var s := Finish(q, base, resourceID, f);
    var r, failed, msg, patched := FinishShape(q, base, resourceID, f);
    var r' := if failed then SetPhase(r, Failed, msg, AdminStatus, f) else Step(r, Zero);
    if failed {
      SetPhaseShape(r, Failed, msg, AdminStatus, f);
    }
    if patched {
      var i :| 0 <= i < |q.log| && q.log[i] == AppRead(Some((id, resourceID)));
      assert s.p.log[i] == q.log[i];
      assert s.p.log[|r'.p.log|] == StatusSent(ReadyPatch, At(f, ReadyPatch).Fine?);
      PatchSound(q.w.stored.value.status, r'.p.w.stored.value.status, base, r'.p.sp.status,
        At(f, ReadyPatch).Applied(), s.p.log);
    }
  }

  lemma CoreReady(p: Pass, f: Faults, a: Answers)
    requires p.w.stored.Some? && SameIdentity(p.w.stored.value.status, p.sp.status)
        && ReadyMeansAdmin(p.w.stored.value.status)
    requires p.sp.status == p.w.stored.value.status || p.sp.status.phase == Failed
    ensures var s := ReconcileCore(p, f, a);
            s.p.w.stored.Some? && ReadySound(p.w.stored.value.status, s.p.w.stored.value.status, s.p.log)
  {
    var q, ending := CoreShape(p, f, a);
    if ending.Recorded? {
      SetPhaseShape(q, Failed, ending.msg, AppStatus, f);
    } else if ending.Finished? {
      FinishReady(q, p.sp.status, ending.id, ending.resourceID, f);
    }
  }

  /** A flag that was off is only recorded for an administrator who is a member already. */
  predicate FlagEarned(before: Status, dir: Directory, name: string, after: Status) {
    after.adminCanView ==> before.adminCanView || AdminMember(dir, name)
  }

  lemma FinishFlag(p: Pass, base: Status, resourceID: string, f: Faults)
    requires p.w.stored.Some? && SameIdentity(p.w.stored.value.status, base)
    requires p.sp.status.adminCanView == base.adminCanView
    ensures var v := Finish(p, base, resourceID, f).p.w;
            v.stored.Some? && FlagEarned(base, p.w.dir, p.sp.declared.spec.name, v.stored.value.status)
  {
    var q, failed, msg, patched := FinishShape(p, base, resourceID, f);
    if failed {
      SetPhaseShape(q, Failed, msg, AdminStatus, f);
    }
  }

  lemma CoreFlag(p: Pass, f: Faults, a: Answers)
    requires p.w.stored.Some? && SameIdentity(p.w.stored.value.status, p.sp.status)
    ensures var v := ReconcileCore(p, f, a).p.w;
            v.stored.Some? && FlagEarned(p.sp.status, p.w.dir, p.sp.declared.spec.name, v.stored.value.status)
  {
    var q, ending := CoreShape(p, f, a);
    if ending.Recorded? {
      SetPhaseShape(q, Failed, ending.msg, AppStatus, f);
    } else if ending.Finished? {
      FinishFlag(q, p.sp.status, ending.resourceID, f);
    }
  }

  // ---------------------------------------------------------------- what goes out

  /** Every inbound entry of a type, and there is one, has this key. */
  predicate CarriesKey(request: ServiceProviderRequest, authType: string, key: string) {
    && (exists c | c in request.inbound :: c.authType == authType)
    && (forall c | c in request.inbound && c.authType == authType :: c.key == key)
  }

  lemma BuiltInbound(app: Application)
    requires app.oauth2.Some? && app.saml.Some?
    ensures CarriesKey(Builder.BuildUpdateApplication(app), Builder.OAUTH2_TYPE, app.oauth2.value.oauthConsumerKey)
    ensures CarriesKey(Builder.BuildUpdateApplication(app), Builder.SAML_TYPE, app.saml.value.issuer)
  {
    ConstantsDiffer();
    var inbound := Builder.BuildUpdateApplication(app).inbound;
    assert inbound[0] == Builder.OAuthEntry(app.oauth2.value) && inbound[1] == Builder.SamlEntry(app.saml.value);
  }

  /** A declared kind goes out with exactly the key that is in the Secret, blank if there is none. */
  lemma SentKeysAreTheSecrets(p: Pass, request: ServiceProviderRequest)
    requires SentFor(p, request)
    ensures p.sp.declared.spec.oauth2.Some? ==>
              CarriesKey(request, Builder.OAUTH2_TYPE, Secrets.Get(p.w.secret, CLIENT_ID))
    ensures p.sp.declared.spec.saml.Some? ==>
        CarriesKey(request, Builder.SAML_TYPE, Secrets.Get(p.w.secret, SAML_ISSUER))
  {
    var spec := p.sp.declared.spec;
    Convergence.SentKeys(p.w.secret, spec);
    BuiltInbound(Convergence.OutgoingApp(p.w.secret, p.w.env, spec, p.sp.status.id, p.sp.status.resourceID));
  }

  predicate CoreGrowth(before: seq<Event>, log: seq<Event>) {
    && (forall e | e in before :: e in log)
    && (forall e | e in log :: e in before || PartOf(e) == AppPart || e.StatusSent?)
  }

  predicate UpdatesFromSecret(p: Pass, log: seq<Event>) {
    forall e | e in log && e.AppUpdated? :: e in p.log || SentFor(p, e.request)
  }

  lemma FinishEvents(p: Pass, base: Status, resourceID: string, f: Faults)
    requires p.w.stored.Some?
    ensures var log := Finish(p, base, resourceID, f).p.log;
            CoreGrowth(p.log, log) && forall e | e in log && e.AppUpdated? :: e in p.log
  {
    var q, failed, msg, patched := FinishShape(p, base, resourceID, f);
    if failed {
      SetPhaseShape(q, Failed, msg, AdminStatus, f);
    }
  }

  lemma GrowthContinues(before: seq<Event>, mid: seq<Event>, after: seq<Event>)
    requires Grown(before, mid, AppPart) && CoreGrowth(mid, after)
    ensures CoreGrowth(before, after)
  {
  }

  lemma StatusGrows(log: seq<Event>, site: Site, ok: bool)
    ensures CoreGrowth(log, log) && CoreGrowth(log, log + [StatusSent(site, ok)])
  {
  }

  lemma CoreGrows(p: Pass, f: Faults, a: Answers)
    requires p.w.stored.Some?
    ensures CoreGrowth(p.log, ReconcileCore(p, f, a).p.log)
  {
    var q, ending := CoreShape(p, f, a);
    var s := ReconcileCore(p, f, a);
    assert CoreGrowth(q.log, s.p.log) by {
      if ending.Recorded? {
        SetPhaseShape(q, Failed, ending.msg, AppStatus, f);
        StatusGrows(q.log, AppStatus, s.out == Requeue);
      } else if ending.Finished? {
        FinishEvents(q, p.sp.status, ending.resourceID, f);
      } else {
        StatusGrows(q.log, CreatedPatch, At(f, CreatedPatch).Fine?);
      }
    }
    GrowthContinues(p.log, q.log, s.p.log);
  }

  lemma CoreSends(p: Pass, f: Faults, a: Answers)
    requires p.w.stored.Some?
    ensures UpdatesFromSecret(p, ReconcileCore(p, f, a).p.log)
  {
    var q, ending := CoreShape(p, f, a);
    if ending.Recorded? {
      SetPhaseShape(q, Failed, ending.msg, AppStatus, f);
    } else if ending.Finished? {
      FinishEvents(q, p.sp.status, ending.resourceID, f);
    }
  }
}
