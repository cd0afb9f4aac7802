/** The WSO2ISInstance controller: phases, and the condition list that summarises their history. */
module Conditions {
  import opened Wrappers

  datatype ConditionStatus = True | False | Unknown

  datatype Condition = Condition(
    kind: string,
    status: ConditionStatus,
    reason: string,
    message: string,
    observedGeneration: int,
    lastTransitionTime: int)

  datatype InstanceStatus = InstanceStatus(phase: Phase, message: string, conditions: seq<Condition>)

  const AVAILABLE: string := "Available"

  function PhaseName(phase: Phase): string {
    match phase
    case NoPhase => ""
    case Pending => "Pending"
    case Failed => "Failed"
    case Ready => "Ready"
    case Paused => "Paused"
  }

  function ReadyStatus(phase: Phase): ConditionStatus {
    if phase == Ready then True else False
  }

  function AvailableCondition(phase: Phase, msg: string, generation: int, now: int): Condition {
    Condition(AVAILABLE, ReadyStatus(phase), PhaseName(phase), msg, generation, now)
  }

  // ---------------------------------------------------------------- the upsert

  /** Overwrites the first condition of the same kind, else appends. */
  function Upsert(conditions: seq<Condition>, new_: Condition): seq<Condition> {
    if conditions == [] then [new_]
    else if conditions[0].kind == new_.kind then
      [if conditions[0].status == new_.status
       then new_.(lastTransitionTime := conditions[0].lastTransitionTime) else new_] + conditions[1..]
    else [conditions[0]] + Upsert(conditions[1..], new_)
  }

  /** The first condition of a kind. */
  function Find(conditions: seq<Condition>, kind: string): Option<Condition> {
    if conditions == [] then None
    else if conditions[0].kind == kind then Some(conditions[0])
    else Find(conditions[1..], kind)
  }

  predicate UniqueKinds(conditions: seq<Condition>) {
    conditions == [] || (Find(conditions[1..], conditions[0].kind).None? && UniqueKinds(conditions[1..]))
  }

  function Others(conditions: seq<Condition>, kind: string): seq<Condition> {
    if conditions == [] then []
    else (if conditions[0].kind == kind then [] else [conditions[0]]) + Others(conditions[1..], kind)
  }

  lemma {:induction false} FindNone(conditions: seq<Condition>, kind: string)
    ensures Find(conditions, kind).None? <==> forall c | c in conditions :: c.kind != kind
  {
    if conditions != [] {
      FindNone(conditions[1..], kind);
      assert conditions == [conditions[0]] + conditions[1..];
    }
  }

  /** Unique kinds, position by position. */
  lemma {:induction false} UniqueKindsMeans(conditions: seq<Condition>)
    ensures UniqueKinds(conditions) <==>
            forall i, j | 0 <= i < j < |conditions| :: conditions[i].kind != conditions[j].kind
  {
    if conditions != [] {
      var tail := conditions[1..];
      UniqueKindsMeans(tail);
      FindNone(tail, conditions[0].kind);
      if UniqueKinds(conditions) {
        forall i, j | 0 <= i < j < |conditions| ensures conditions[i].kind != conditions[j].kind {
          assert conditions[j] == tail[j - 1];
          if i > 0 { assert conditions[i] == tail[i - 1]; }
        }
      }
      if forall i, j | 0 <= i < j < |conditions| :: conditions[i].kind != conditions[j].kind {
        assert forall i | 0 <= i < |tail| :: tail[i] == conditions[i + 1];
      }
    }
  }

  lemma {:induction false} UpsertPrefix(conditions: seq<Condition>, new_: Condition, i: nat)
    requires i <= |conditions|
    requires forall j | 0 <= j < i :: conditions[j].kind != new_.kind
    ensures Upsert(conditions, new_) == conditions[..i] + Upsert(conditions[i..], new_)
  {
    if i > 0 {
      UpsertPrefix(conditions[1..], new_, i - 1);
      var init, tail := conditions[1..][..i - 1], Upsert(conditions[i..], new_);
      assert conditions[1..][i - 1..] == conditions[i..];
      assert Upsert(conditions[1..], new_) == init + tail;
      assert conditions[..i] == [conditions[0]] + init;
      assert [conditions[0]] + init + tail == [conditions[0]] + (init + tail);
    } else {
      assert conditions[0..] == conditions;
    }
  }

  lemma {:induction false} UpsertFinds(conditions: seq<Condition>, new_: Condition, kind: string)
    ensures Find(Upsert(conditions, new_), kind) ==
            if kind != new_.kind then Find(conditions, kind)
            else match Find(conditions, kind)
                 case None => Some(new_)
                 case Some(d) => Some(if d.status == new_.status
                   then new_.(lastTransitionTime := d.lastTransitionTime) else new_)
  {
    if conditions != [] && conditions[0].kind != new_.kind {
      UpsertFinds(conditions[1..], new_, kind);
      assert Upsert(conditions, new_)[1..] == Upsert(conditions[1..], new_);
    } else if conditions != [] {
      assert Upsert(conditions, new_)[1..] == conditions[1..];
    }
  }

  /** Kinds stay unique and every other condition keeps its value and place. */
  lemma {:induction false} UpsertKeeps(conditions: seq<Condition>, new_: Condition)
    requires UniqueKinds(conditions)
    ensures UniqueKinds(Upsert(conditions, new_))
    ensures Others(Upsert(conditions, new_), new_.kind) == Others(conditions, new_.kind)
  {
    if conditions != [] {
      var r := Upsert(conditions, new_);
      if conditions[0].kind == new_.kind {
        assert r[1..] == conditions[1..];
      } else {
        UpsertKeeps(conditions[1..], new_);
        UpsertFinds(conditions[1..], new_, conditions[0].kind);
        assert r[1..] == Upsert(conditions[1..], new_);
      }
    } else {
      assert Upsert(conditions, new_)[1..] == [];
    }
  }

  /** The instance as held in memory during a pass. */
  class InstanceObject {
    const generation: int
    const baseURL: string
    var phase: Phase
    var message: string
    var conditions: seq<Condition>

    constructor (generation: int, baseURL: string, status: InstanceStatus)
      ensures this.generation == generation && this.baseURL == baseURL && Status() == status
    {
      this.generation, this.baseURL := generation, baseURL;
      this.phase, this.message, this.conditions := status.phase, status.message, status.conditions;
    }

    function Status(): InstanceStatus
      reads this
    {
      InstanceStatus(phase, message, conditions)
    }

    method SetCondition(condition: Condition, now: int)
      modifies this`conditions
      ensures conditions == Upsert(old(conditions), condition.(lastTransitionTime := now))
    {
      var new_ := condition.(lastTransitionTime := now);
      for i := 0 to |conditions|
        invariant conditions == old(conditions)
        invariant forall j | 0 <= j < i :: conditions[j].kind != new_.kind
        invariant new_ == condition.(lastTransitionTime := now)
      {
        var c := conditions[i];
        if c.kind == new_.kind {
          UpsertPrefix(conditions, new_, i);
          if c.status == new_.status {
            new_ := new_.(lastTransitionTime := c.lastTransitionTime);
          }
          conditions := conditions[i := new_];
          return;
        }
      }
      UpsertPrefix(conditions, new_, |conditions|);
      conditions := conditions + [new_];
    }
  }

  // ---------------------------------------------------------------- status writes

  /** One call of setPhaseNoRequeue at a given time. */
  datatype Write = Write(phase: Phase, message: string, generation: int, now: int)

  function Written(st: InstanceStatus, w: Write): InstanceStatus {
    InstanceStatus(w.phase, w.message,
      Upsert(st.conditions, AvailableCondition(w.phase, w.message, w.generation, w.now)))
  }

  /** What a pass finds when it looks at the instance's surroundings. */
  datatype Surroundings = Surroundings(
    getFault: Fault,
    credentials: Option<map<string, string>>,  // None: the Secret cannot be read
    credentialsError: string,
    pingFault: Fault,
    writeFault: Fault,
    now: int)

  function Observed(baseURL: string, generation: int, s: Surroundings): Write {
    if s.credentials.None? then Write(Failed, s.credentialsError, generation, s.now)
    else if Lookup(s.credentials.value, "username") == "" || Lookup(s.credentials.value, "password") == "" then
      Write(Failed, "secret missing 'username' or 'password' keys", generation, s.now)
    else if s.pingFault.Fail? then Write(Failed, s.pingFault.err, generation, s.now)
    else Write(Ready, "Connected to " + baseURL, generation, s.now)
  }

  /** Both credentials are there and not blank. */
  predicate Complete(credentials: Option<map<string, string>>) {
    && credentials.Some?
    && "username" in credentials.value && credentials.value["username"] != ""
    && "password" in credentials.value && credentials.value["password"] != ""
  }

  /** Phase and message tell what was found: Ready exactly with complete credentials and an answering
      server, otherwise Failed with the first obstacle. */
  predicate Tells(phase: Phase, message: string, baseURL: string, s: Surroundings) {
    && (phase == Ready <==> Complete(s.credentials) && s.pingFault.Fine?)
    && (phase != Ready ==> phase == Failed)
    && (phase == Ready ==> message == "Connected to " + baseURL)
    && (s.credentials.None? ==> message == s.credentialsError)
    && (s.credentials.Some? && !Complete(s.credentials) ==> message == "secret missing 'username' or 'password' keys")
    && (Complete(s.credentials) && s.pingFault.Fail? ==> message == s.pingFault.err)
  }

  lemma ObservedTells(baseURL: string, generation: int, s: Surroundings)
    ensures var w := Observed(baseURL, generation, s);
            Tells(w.phase, w.message, baseURL, s) && w.generation == generation && w.now == s.now
  {
  }

  class InstanceReconciler {
    var stored: Option<InstanceStatus>  // the persisted object; None once deleted
    const generation: int
    const baseURL: string

    constructor (generation: int, baseURL: string, stored: Option<InstanceStatus>)
      ensures this.stored == stored && this.generation == generation && this.baseURL == baseURL
    {
      this.generation, this.baseURL, this.stored := generation, baseURL, stored;
    }

    method SetPhaseNoRequeue(inst: InstanceObject, phase: Phase, msg: string, s: Surroundings) returns (ok: bool)
      requires stored.Some?
      modifies this, inst
      ensures inst.Status() == Written(old(inst.Status()), Write(phase, msg, inst.generation, s.now))
      ensures stored == if s.writeFault.Applied() then Some(inst.Status()) else old(stored)
      ensures ok == s.writeFault.Fine?
    {
      inst.phase := phase;
      inst.message := msg;
      var condStatus := True;
      if phase != Ready {
        condStatus := False;
      }
      inst.SetCondition(Condition(AVAILABLE, condStatus, PhaseName(phase), msg, inst.generation, 0), s.now);
      if s.writeFault.Applied() {
        stored := Some(inst.Status());
      }
      ok := s.writeFault.Fine?;
    }

    /** Ready is written exactly when credentials are complete and the server answers; every pass over
        an existing instance writes once, and only a failed write or read is an error. */
    method Reconcile(s: Surroundings) returns (out: Outcome)
      modifies this
      ensures old(stored).None? || s.getFault.Fail? ==> stored == old(stored)
      ensures old(stored).Some? && s.getFault.Fine? ==>
                stored == if s.writeFault.Applied()
                  then Some(Written(old(stored).value, Observed(baseURL, generation, s)))
                          else old(stored)
      ensures old(stored).Some? && s.getFault.Fine? && s.writeFault.Applied() ==>
                && stored.Some? && Tells(stored.value.phase, stored.value.message, baseURL, s)
                && Find(stored.value.conditions, "Available").Some?
                && Find(stored.value.conditions, "Available").value.status ==
                   if Complete(s.credentials) && s.pingFault.Fine? then True else False
      ensures out == if s.getFault.Fail? then Error else if old(stored).None? then Zero
                     else if s.writeFault.Fine? then Requeue else Error
    {
      ghost var before := stored;
      if s.getFault.Fail? {
        return Error;
      }
      if stored.None? {
        return Zero;
      }
      var inst := new InstanceObject(generation, baseURL, stored.value);
      var ok;
      if s.credentials.None? {
        ok := SetPhaseNoRequeue(inst, Failed, s.credentialsError, s);
      } else {
        var username := Lookup(s.credentials.value, "username");
        var password := Lookup(s.credentials.value, "password");
        if username == "" || password == "" {
          ok := SetPhaseNoRequeue(inst, Failed, "secret missing 'username' or 'password' keys", s);
        } else if s.pingFault.Fail? {
          ok := SetPhaseNoRequeue(inst, Failed, s.pingFault.err, s);
        } else {
          ok := SetPhaseNoRequeue(inst, Ready, "Connected to " + baseURL, s);
        }
      }
      out := if ok then Requeue else Error;
      if s.writeFault.Applied() {
        ObservedTells(baseURL, generation, s);
        var w := Observed(baseURL, generation, s);
        UpsertFinds(before.value.conditions, AvailableCondition(w.phase, w.message, w.generation, w.now), AVAILABLE);
      }
    }
  }

  // ---------------------------------------------------------------- histories

  /** The persisted status after a history of applied writes. */
  function After(st: InstanceStatus, writes: seq<Write>): InstanceStatus {
    if writes == [] then st
    else Written(After(st, writes[..|writes| - 1]), writes[|writes| - 1])
  }

  /** Write k begins the unbroken stretch of equal readiness that reaches the end of the history. */
  predicate BeginsLastStretch(writes: seq<Write>, k: nat) {
    && k < |writes|
    && (forall j | k <= j < |writes| :: ReadyStatus(writes[j].phase) == ReadyStatus(writes[|writes| - 1].phase))
    && (k > 0 ==> ReadyStatus(writes[k - 1].phase) != ReadyStatus(writes[|writes| - 1].phase))
  }

  /** After any history on a list with unique kinds and no Available condition yet: kinds are still
      unique, all other conditions are as they were, there is exactly one Available condition, it is
      True exactly when the persisted phase is Ready, and it carries the time of the first write of
      the current stretch of equal readiness. */
  lemma {:induction false} ConditionHistory(st: InstanceStatus, writes: seq<Write>, k: nat)
    requires UniqueKinds(st.conditions) && Find(st.conditions, AVAILABLE).None?
    requires BeginsLastStretch(writes, k)
    ensures var r := After(st, writes);
            && UniqueKinds(r.conditions)
            && Others(r.conditions, AVAILABLE) == Others(st.conditions, AVAILABLE)
            && Find(r.conditions, AVAILABLE).Some?
            && var c := Find(r.conditions, AVAILABLE).value;
               && (c.status == True <==> r.phase == Ready)
               && c.status == ReadyStatus(writes[|writes| - 1].phase)
               && r.phase == writes[|writes| - 1].phase && r.message == writes[|writes| - 1].message
               && c.kind == "Available" && c.message == r.message
               && c.observedGeneration == writes[|writes| - 1].generation
               && (r.phase == Ready ==> c.reason == "Ready") && (r.phase == Failed ==> c.reason == "Failed")
               && c.lastTransitionTime == writes[k].now
  {
    var n := |writes| - 1;
    var init, w := writes[..n], writes[n];
    var before := After(st, init);
    var new_ := AvailableCondition(w.phase, w.message, w.generation, w.now);
    if n > 0 {
      var k' := StretchStart(init);
      ConditionHistory(st, init, k');
      if k < n {
        StretchStartUnique(writes, k, k');
      }
    }
    UpsertKeeps(before.conditions, new_);
    UpsertFinds(before.conditions, new_, AVAILABLE);
  }

  /** Every non-empty history has a last stretch. */
  lemma {:induction false} StretchStart(writes: seq<Write>) returns (k: nat)
    requires writes != []
    ensures BeginsLastStretch(writes, k)
  {
    var n := |writes| - 1;
    k := n;
    if n > 0 && ReadyStatus(writes[n - 1].phase) == ReadyStatus(writes[n].phase) {
      k := StretchStart(writes[..n]);
    }
  }

  lemma StretchStartUnique(writes: seq<Write>, k: nat, k': nat)
    requires |writes| > 1 && k < |writes| - 1
    requires BeginsLastStretch(writes, k) && BeginsLastStretch(writes[..|writes| - 1], k')
    ensures k == k'
  {
    var init := writes[..|writes| - 1];
    assert ReadyStatus(init[|init| - 1].phase) == ReadyStatus(writes[|writes| - 1].phase);
    assert forall j | 0 <= j < |init| :: init[j] == writes[j];
  }
}
