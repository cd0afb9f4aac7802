/** Whole runs: passes that may fail in any way, interleaved with whatever users, other clients of
    WSO2 and the instance controller do. */
module Runs {
  import opened Wrappers
  import opened World
  import opened Reconcile
  import opened Stages
  import opened Safety
  import Secrets

  // ---------------------------------------------------------------- runs

  datatype Move =
    | APass(faults: Faults, answers: Answers)
    | Elsewhere(to: World)

  /** What others may do to the object: edit, pause or delete it; never write its status, revive it,
      or take the operator's finalizer away. A fresh object has a blank status. */
  predicate AllowedObject(before: Option<SP>, after: Option<SP>) {
    if before.None? then after.Some? ==> after.value.status == BLANK_STATUS
    else if after.None? then SP_FINALIZER !in before.value.finalizers
    else
      && after.value.status == before.value.status
      && (before.value.declared.deleting ==> after.value.declared.deleting)
      && (SP_FINALIZER in before.value.finalizers ==> SP_FINALIZER in after.value.finalizers)
  }

  /** Everything else, the Secret included, may change at will. */
  predicate Allowed(w: World, to: World) {
    AllowedObject(w.stored, to.stored)
  }

  function Moved(w: World, m: Move): World {
    match m
    case APass(f, a) => Run(w, f, a).w
    case Elsewhere(to) => to
  }

  function After(w: World, moves: seq<Move>): World {
    if moves == [] then w else Moved(After(w, moves[..|moves| - 1]), moves[|moves| - 1])
  }

  predicate Possible(w: World, moves: seq<Move>) {
    moves == [] ||
    var init, last := moves[..|moves| - 1], moves[|moves| - 1];
    Possible(w, init) && (last.Elsewhere? ==> Allowed(After(w, init), last.to))
  }

  /** The state just before move k. */
  function Before(w: World, moves: seq<Move>, k: nat): World
    requires k <= |moves|
  {
    After(w, moves[..k])
  }

  lemma BeforeInit(w: World, moves: seq<Move>, k: nat)
    requires moves != [] && k < |moves|
    ensures Before(w, moves[..|moves| - 1], k) == Before(w, moves, k)
  {
    assert moves[..|moves| - 1][..k] == moves[..k];
  }

  lemma BeforeEnd(w: World, moves: seq<Move>)
    ensures Before(w, moves, |moves|) == After(w, moves)
  {
    assert moves[..|moves|] == moves;
  }

  // ---------------------------------------------------------------- Ready is justified

  predicate StatusIs(w: World, st: Status) {
    w.stored.Some? && w.stored.value.status == st
  }

  /** Move k is a pass that read these identifiers from WSO2 and sent this Ready status. */
  predicate WrittenBy(w: World, moves: seq<Move>, k: nat, st: Status)
    requires k < |moves|
  {
    moves[k].APass? && ReadyWritten(Run(Before(w, moves, k), moves[k].faults, moves[k].answers).log, st)
  }

  /** ... and the status has been persisted ever since. */
  predicate JustifiedBy(w: World, moves: seq<Move>, k: nat, st: Status) {
    && k < |moves| && WrittenBy(w, moves, k, st)
    && forall j | k < j <= |moves| :: StatusIs(Before(w, moves, j), st)
  }

  /** One move keeps "Ready implies admin access", and a Ready status is new only after a pass that wrote it. */
  lemma MoveReady(v: World, m: Move)
    requires m.Elsewhere? ==> Allowed(v, m.to)
    requires v.stored.Some? ==> ReadyMeansAdmin(v.stored.value.status)
    ensures var u := Moved(v, m);
            u.stored.Some? ==>
              && ReadyMeansAdmin(u.stored.value.status)
              && (v.stored.Some? && v.stored.value.status.adminCanView ==> u.stored.value.status.adminCanView)
              && (u.stored.value.status.phase == Ready ==>
                    || StatusIs(v, u.stored.value.status)
                    || (m.APass? && ReadyWritten(Run(v, m.faults, m.answers).log, u.stored.value.status)))
  {
    if m.APass? {
      if v.stored.Some? {
        PassReady(v, m.faults, m.answers);
      } else {
        PassKeepsDeclared(v, m.faults, m.answers);
      }
    }
  }

  lemma JustificationLasts(w: World, moves: seq<Move>, k: nat, st: Status)
    ensures moves != [] && JustifiedBy(w, moves[..|moves| - 1], k, st) && StatusIs(After(w, moves), st) ==>
              JustifiedBy(w, moves, k, st)
  {
    if moves != [] && JustifiedBy(w, moves[..|moves| - 1], k, st) && StatusIs(After(w, moves), st) {
      BeforeInit(w, moves, k);
      BeforeEnd(w, moves);
      forall j | k < j <= |moves| ensures StatusIs(Before(w, moves, j), st) {
        if j < |moves| { BeforeInit(w, moves, j); }
      }
    }
  }

  lemma JustifiedByLast(w: World, moves: seq<Move>, st: Status)
    ensures moves != [] && WrittenBy(w, moves, |moves| - 1, st) && StatusIs(After(w, moves), st) ==>
              JustifiedBy(w, moves, |moves| - 1, st)
  {
    BeforeEnd(w, moves);
  }

  /** The status invariant over all runs, lost status writes included: a persisted Ready implies admin
      access, and some pass of the run read exactly these identifiers from WSO2, sent that very status,
      and it has been persisted since. */
  lemma {:induction false} ReadyIsJustified(w: World, moves: seq<Move>) returns (k: nat)
    requires Possible(w, moves) && (w.stored.Some? ==> w.stored.value.status == BLANK_STATUS)
    ensures var v := After(w, moves);
            v.stored.Some? ==>
              && ReadyMeansAdmin(v.stored.value.status)
              && (v.stored.value.status.phase == Ready ==> JustifiedBy(w, moves, k, v.stored.value.status))
  {
    k := 0;
    if moves != [] {
      var init, last := moves[..|moves| - 1], moves[|moves| - 1];
      k := ReadyIsJustified(w, init);
      var before, after := After(w, init), After(w, moves);
      MoveReady(before, last);
      if after.stored.Some? && after.stored.value.status.phase == Ready {
        if StatusIs(before, after.stored.value.status) {
          JustificationLasts(w, moves, k, after.stored.value.status);
        } else {
          k := |moves| - 1;
          JustifiedByLast(w, moves, after.stored.value.status);
        }
      }
    }
  }

  /** As long as the object exists, admin access once recorded is never taken back. */
  lemma {:induction false} AdminAccessIsKept(w: World, moves: seq<Move>)
    requires Possible(w, moves) && w.stored.Some? && w.stored.value.status.adminCanView
    requires forall k | 0 <= k <= |moves| :: Before(w, moves, k).stored.Some?
    ensures After(w, moves).stored.Some? && After(w, moves).stored.value.status.adminCanView
  {
    BeforeEnd(w, moves);
    if moves != [] {
      var init := moves[..|moves| - 1];
      forall k | 0 <= k <= |init| ensures Before(w, init, k).stored.Some? {
        BeforeInit(w, moves, k);
      }
      AdminAccessIsKept(w, init);
      MoveReady(After(w, init), moves[|moves| - 1]);
    }
  }

  // ---------------------------------------------------------------- the finalizer

  predicate LetGoBy(w: World, moves: seq<Move>, k: nat) {
    && k < |moves| && moves[k].APass?
    && LetsGo(Before(w, moves, k), moves[k].faults, moves[k].answers)
  }

  /** Over any run, the finalizer only ever goes in a pass over a deleted object that either sent the
      remote delete or had never recorded a remote identifier. */
  lemma {:induction false} FinalizerGuardsDeletion(w: World, moves: seq<Move>) returns (k: nat)
    requires Possible(w, moves) && Holds(w) && !Holds(After(w, moves))
    ensures LetGoBy(w, moves, k)
    ensures var v := Before(w, moves, k);
            && v.stored.value.declared.deleting
            && (|| AppDeleted(v.stored.value.declared.spec.name) in Run(v, moves[k].faults, moves[k].answers).log
                || v.stored.value.status.resourceID == "")
  {
    var init, last := moves[..|moves| - 1], moves[|moves| - 1];
    if Holds(After(w, init)) {
      k := |moves| - 1;
      FinalizerRemoval(Before(w, moves, k), last.faults, last.answers);
    } else {
      k := FinalizerGuardsDeletion(w, init);
      BeforeInit(w, moves, k);
    }
  }

  // ---------------------------------------------------------------- the Secret

  /** Nobody else writes the Secret; at most it is collected together with the object that owns it. */
  predicate SecretLeftAlone(w: World, moves: seq<Move>) {
    moves == [] ||
    var init, last := moves[..|moves| - 1], moves[|moves| - 1];
    && SecretLeftAlone(w, init)
    && (last.Elsewhere? ==> last.to.secret == After(w, init).secret || Collected(After(w, init), last.to))
  }

  predicate Collected(w: World, to: World) {
    to.secret != w.secret && to.stored.None? && to.secret.None?
  }

  /** The effective upserts of all passes of a run, in order, since the Secret was last collected. */
  function RunUpserts(w: World, moves: seq<Move>): seq<Secrets.Upsert> {
    if moves == [] then []
    else
      var init, last := moves[..|moves| - 1], moves[|moves| - 1];
      match last
      case APass(f, a) => RunUpserts(w, init) + PassUpserts(After(w, init), f, a)
      case Elsewhere(to) => if Collected(After(w, init), to) then [] else RunUpserts(w, init)
  }

  /** Over any run that starts without a Secret, the Secret is exactly what the upserts of the run's own
      passes have left: for each key the last non-blank value they wrote, and no blank. */
  lemma {:induction false} SecretIsRemembered(w: World, moves: seq<Move>)
    requires Possible(w, moves) && SecretLeftAlone(w, moves) && w.secret.None?
    ensures var secret, history := After(w, moves).secret, RunUpserts(w, moves);
            && secret == Secrets.After(None, history)
            && (forall k | k != "" :: Secrets.Get(secret, k) == Secrets.LastWritten(history, k))
            && Secrets.NoBlanks(secret)
  {
    if moves != [] {
      var init, last := moves[..|moves| - 1], moves[|moves| - 1];
      SecretIsRemembered(w, init);
      if last.APass? {
        var before := After(w, init);
        PassSecret(before, last.faults, last.answers);
        Secrets.AfterBoth(None, RunUpserts(w, init), PassUpserts(before, last.faults, last.answers));
      }
    }
    Secrets.SecretHistory(None, RunUpserts(w, moves));
  }

  /** Move k is a pass with this effective upsert, grounded in what that pass read. */
  predicate UpsertedBy(w: World, moves: seq<Move>, k: nat, u: Secrets.Upsert) {
    && k < |moves| && moves[k].APass?
    && var v := Before(w, moves, k);
       && u in PassUpserts(v, moves[k].faults, moves[k].answers)
       && Grounded(v, Run(v, moves[k].faults, moves[k].answers).log, u)
  }

  /** Nothing is invented: each of these upserts belongs to a pass of the run, and holds under their own keys
      exactly the two values of a registration as it was before that pass, which read it. */
  lemma {:induction false} UpsertsAreGrounded(w: World, moves: seq<Move>, u: Secrets.Upsert) returns (k: nat)
    requires u in RunUpserts(w, moves)
    ensures UpsertedBy(w, moves, k, u)
  {
    var init, last := moves[..|moves| - 1], moves[|moves| - 1];
    if last.APass? && u in PassUpserts(After(w, init), last.faults, last.answers) {
      k := |init|;
      PassUpsertsGrounded(After(w, init), last.faults, last.answers, u);
    } else {
      k := UpsertsAreGrounded(w, init, u);
      BeforeInit(w, moves, k);
    }
  }

  /** While the object exists, a key once in the Secret is never lost. */
  lemma {:induction false} NoKeyIsLost(w: World, moves: seq<Move>, key: string)
    requires Possible(w, moves) && SecretLeftAlone(w, moves) && key != "" && Secrets.Get(w.secret, key) != ""
    requires forall k | 0 <= k <= |moves| :: Before(w, moves, k).stored.Some?
    ensures Secrets.Get(After(w, moves).secret, key) != ""
  {
    if moves != [] {
      var init, last := moves[..|moves| - 1], moves[|moves| - 1];
      forall k | 0 <= k <= |init| ensures Before(w, init, k).stored.Some? {
        BeforeInit(w, moves, k);
      }
      NoKeyIsLost(w, init, key);
      BeforeEnd(w, moves);
      if last.APass? {
        PassSecret(After(w, init), last.faults, last.answers);
        Secrets.NoKeyIsLost(After(w, init).secret, PassUpserts(After(w, init), last.faults, last.answers), key);
      }
    }
  }

  /** Move k is a pass with this event in its journal. */
  predicate HappenedIn(w: World, moves: seq<Move>, k: nat, e: Event) {
    k < |moves| && moves[k].APass? && e in Run(Before(w, moves, k), moves[k].faults, moves[k].answers).log
  }

  /** What a value of the Secret goes back to. */
  lemma WrittenLast(w: World, moves: seq<Move>, key: string) returns (k: nat, u: Secrets.Upsert)
    requires Possible(w, moves) && SecretLeftAlone(w, moves) && w.secret.None?
    requires key != "" && Secrets.Get(After(w, moves).secret, key) != ""
    ensures UpsertedBy(w, moves, k, u) && key in u.kv && u.kv[key] == Secrets.Get(After(w, moves).secret, key)
  {
    SecretIsRemembered(w, moves);
    u := Secrets.LastWrittenBy(RunUpserts(w, moves), key);
    k := UpsertsAreGrounded(w, moves, u);
  }

  lemma GroundedByKey(w: World, log: seq<Event>, u: Secrets.Upsert)
    requires Grounded(w, log, u)
    ensures CLIENT_ID in u.kv || CLIENT_SECRET in u.kv ==> OAuthGrounded(w, log, u)
    ensures SAML_ISSUER in u.kv ==> SamlGrounded(w, log, u)
  {
    KeysDiffer();
  }

  /** Over any run that starts without a Secret, a client ID found in it was read from WSO2 by some pass. */
  lemma ClientIDWasRead(w: World, moves: seq<Move>) returns (k: nat)
    requires Possible(w, moves) && SecretLeftAlone(w, moves) && w.secret.None?
    ensures var id := Secrets.Get(After(w, moves).secret, CLIENT_ID);
            id != "" ==> HappenedIn(w, moves, k, OAuthRead(Some(id)))
  {
    k := 0;
    KeysDiffer();
    if Secrets.Get(After(w, moves).secret, CLIENT_ID) != "" {
      var u;
      k, u := WrittenLast(w, moves, CLIENT_ID);
      var v := Before(w, moves, k);
      GroundedByKey(v, Run(v, moves[k].faults, moves[k].answers).log, u);
    }
  }

  /** ... and so was an issuer. */
  lemma IssuerWasRead(w: World, moves: seq<Move>) returns (k: nat)
    requires Possible(w, moves) && SecretLeftAlone(w, moves) && w.secret.None?
    ensures var issuer := Secrets.Get(After(w, moves).secret, SAML_ISSUER);
            issuer != "" ==> HappenedIn(w, moves, k, SamlRead(issuer))
  {
    k := 0;
    KeysDiffer();
    if Secrets.Get(After(w, moves).secret, SAML_ISSUER) != "" {
      var u;
      k, u := WrittenLast(w, moves, SAML_ISSUER);
      var v := Before(w, moves, k);
      GroundedByKey(v, Run(v, moves[k].faults, moves[k].answers).log, u);
    }
  }

  /** The secret was that of the registration when this pass read it. */
  predicate RegisteredSecret(w: World, moves: seq<Move>, k: nat, secret: string) {
    && k < |moves| && moves[k].APass?
    && var v := Before(w, moves, k);
       && v.stored.Some? && v.stored.value.declared.spec.name in v.oauth
       && v.oauth[v.stored.value.declared.spec.name].oauthConsumerSecret == secret
       && HappenedIn(w, moves, k, OAuthRead(Some(v.oauth[v.stored.value.declared.spec.name].oauthConsumerKey)))
  }

  /** A client secret found in it was that of a registration read by some pass. */
  lemma ClientSecretWasRegistered(w: World, moves: seq<Move>) returns (k: nat)
    requires Possible(w, moves) && SecretLeftAlone(w, moves) && w.secret.None?
    ensures var secret := Secrets.Get(After(w, moves).secret, CLIENT_SECRET);
            secret != "" ==> RegisteredSecret(w, moves, k, secret)
  {
    k := 0;
    KeysDiffer();
    if Secrets.Get(After(w, moves).secret, CLIENT_SECRET) != "" {
      var u;
      k, u := WrittenLast(w, moves, CLIENT_SECRET);
      var v := Before(w, moves, k);
      GroundedByKey(v, Run(v, moves[k].faults, moves[k].answers).log, u);
    }
  }

  // ---------------------------------------------------------------- pauses, for any number of passes

  /** While the application is paused, any number of passes, failing in any way, changes nothing but
      the phase, which may become Paused: no store of WSO2, no Secret, no finalizer, even under deletion. */
  lemma {:induction false} PausedPasses(w: World, moves: seq<(Faults, Answers)>)
    requires w.stored.Some? && Skip(RECONCILE_APP, w.stored.value.declared.annotations)
    ensures var v, sp := Passes(w, moves), w.stored.value;
            v == w || v == w.(stored := Some(sp.(status := sp.status.(phase := Paused))))
  {
    if moves != [] {
      var init, last := moves[..|moves| - 1], moves[|moves| - 1];
      PausedPasses(w, init);
      PausedPass(Passes(w, init), last.0, last.1);
    }
  }

  /** While OAuth is paused, any number of passes leaves OAuth registrations and OAuth keys alone. */
  lemma {:induction false} OAuthPausedPasses(w: World, moves: seq<(Faults, Answers)>)
    requires w.stored.Some? && !OAuthActive(w.stored.value.declared)
    ensures var v := Passes(w, moves);
            && v.oauth == w.oauth && v.env == w.env
            && Secrets.Get(v.secret, CLIENT_ID) == Secrets.Get(w.secret, CLIENT_ID)
            && Secrets.Get(v.secret, CLIENT_SECRET) == Secrets.Get(w.secret, CLIENT_SECRET)
            && (v.stored.Some? ==> v.stored.value.declared == w.stored.value.declared)
  {
    if moves != [] {
      var init, last := moves[..|moves| - 1], moves[|moves| - 1];
      OAuthPausedPasses(w, init);
      var v := Passes(w, init);
      PassKeepsDeclared(v, last.0, last.1);
      if v.stored.Some? {
        OAuthPausedPass(v, last.0, last.1);
      }
    }
  }

  /** While SAML is paused, any number of passes leaves SAML registrations and SAML keys alone. */
  lemma {:induction false} SamlPausedPasses(w: World, moves: seq<(Faults, Answers)>)
    requires w.stored.Some? && !SamlActive(w.stored.value.declared)
    ensures var v := Passes(w, moves);
            && v.saml == w.saml && v.env == w.env
            && Secrets.Get(v.secret, SAML_ISSUER) == Secrets.Get(w.secret, SAML_ISSUER)
            && Secrets.Get(v.secret, SAML_INDEX) == Secrets.Get(w.secret, SAML_INDEX)
            && (v.stored.Some? ==> v.stored.value.declared == w.stored.value.declared)
  {
    if moves != [] {
      var init, last := moves[..|moves| - 1], moves[|moves| - 1];
      SamlPausedPasses(w, init);
      var v := Passes(w, init);
      PassKeepsDeclared(v, last.0, last.1);
      if v.stored.Some? {
        SamlPausedPass(v, last.0, last.1);
      }
    }
  }
}
