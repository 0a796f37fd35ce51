/**
 Crash safety of the registrar rotation over every sequence of requests, interrupted and
 complete reconciles, Job progress and Job deletion, as long as nobody else edits the Secrets.
 */
module RegistrarSafety {
  import opened Wrappers
  import opened Runs
  import opened RegistrarRotation

  /**
   The vault with its history: the bootstrap credential, every credential whose rotation Job
   succeeded, the credential that the last completed promotion replaced, and whether a
   promotion has since been cut off between its two writes.
   */
  datatype System = System(
    vault: Vault, bootstrap: Option<Data>, registered: set<Data>, replaced: Option<Data>, interrupted: bool)

  /** The reconcile gets as far as promoting. */
  predicate Promotes(v: Vault, requestID: string, slot: string, caReady: bool, made: Data) {
    requestID != "" && v.active.Some? && WellFormed(v.active.value.data) && caReady &&
    !Promoted(v.active.value, WithStaged(v, slot, requestID, made).staged[slot], requestID) &&
    slot in v.jobs && v.jobs[slot] == Succeeded
  }

  /** One reconcile, with the history it writes. */
  function AfterReconcile(s: System, requestID: string, slot: string, caReady: bool, made: Data, reach: Reach): System {
    var after := s.(vault := Reconciled(s.vault, requestID, slot, caReady, made, reach).vault);
    if !Promotes(s.vault, requestID, slot, caReady, made) then after
    else if reach == Everything then after.(replaced := Some(s.vault.active.value.data), interrupted := false)
    else if reach == UpToPrevious then after.(interrupted := true)
    else after
  }

  ghost predicate ReconcileStep(slotOf: string -> string, requestID: string, s: System, t: System) {
    exists username, password, caReady, reach ::
      Generated(username, password) &&
      t == AfterReconcile(s, requestID, slotOf(requestID), caReady, Credential(username, password), reach)
  }

  /** ensureCABootstrapSecret. */
  ghost predicate BootstrapStep(s: System, t: System) {
    exists username, password :: Generated(username, password) &&
      if s.vault.active.None?
      then t == s.(vault := s.vault.(active := Some(Secret("", Credential(username, password)))),
                   bootstrap := Some(Credential(username, password)))
      else if WellFormed(s.vault.active.value.data) then t == s
      else t == s.(vault := s.vault.(active := Some(s.vault.active.value.(data := Credential(username, password)))))
  }

  /** A Job that succeeds has registered and enrolled the credential staged in its slot. */
  ghost predicate JobStep(s: System, t: System) {
    exists slot <- s.vault.jobs :: slot in s.vault.staged &&
      (t == s.(vault := s.vault.(jobs := s.vault.jobs[slot := Failed])) ||
       t == s.(vault := s.vault.(jobs := s.vault.jobs[slot := Succeeded]),
               registered := s.registered + {s.vault.staged[slot].data}) ||
       t == s.(vault := s.vault.(jobs := s.vault.jobs - {slot})))
  }

  ghost predicate Step(slotOf: string -> string, s: System, t: System) {
    BootstrapStep(s, t) || JobStep(s, t) || exists requestID :: ReconcileStep(slotOf, requestID, s, t)
  }

  ghost predicate Init(s: System) {
    s == System(Vault(None, None, map[], map[]), None, {}, None, false)
  }

  ghost predicate Run(slotOf: string -> string, states: seq<System>) {
    IsRun(states, s => Init(s), (s, t) => Step(slotOf, s, t))
  }

  // ----------------------------------------------------------------------------- the invariant

  ghost predicate StagedOk(v: Vault, registered: set<Data>) {
    (forall slot <- v.staged :: WellFormed(v.staged[slot].data)) &&
    (forall slot <- v.jobs :: slot in v.staged && (v.jobs[slot] == Succeeded ==> v.staged[slot].data in registered))
  }

  /** The active credential is well formed and the bootstrap one or a registered one. */
  ghost predicate ActiveOk(s: System) {
    s.vault.active.Some? ==>
      var data := s.vault.active.value.data;
      WellFormed(data) && (s.bootstrap == Some(data) || data in s.registered)
  }

  /** What `previous` holds: the replaced credential, or the active one if a promotion was cut off. */
  ghost predicate PreviousOk(s: System) {
    match s.vault.previous
    case None => s.replaced == None && !s.interrupted
    case Some(secret) =>
      s.vault.active.Some? &&
      if s.interrupted then secret.data == s.vault.active.value.data else s.replaced == Some(secret.data)
  }

  ghost predicate Inv(s: System) {
    StagedOk(s.vault, s.registered) && ActiveOk(s) && PreviousOk(s)
  }

  lemma StagingKeeps(v: Vault, registered: set<Data>, slot: string, requestID: string, username: string, password: string)
    requires StagedOk(v, registered) && Generated(username, password)
    ensures StagedOk(WithStaged(v, slot, requestID, Credential(username, password)), registered)
    ensures slot in v.staged ==>
      WithStaged(v, slot, requestID, Credential(username, password)).staged[slot].data == v.staged[slot].data
  {
    GeneratedIsWellFormed(username, password);
  }

  /** `kept` is the replaced credential under its request, or under the request noted before if it never had one. */
  ghost predicate SavedFrom(previous: Option<Secret>, active: Secret, kept: Option<Secret>) {
    kept.Some? && kept.value.data == active.data &&
    kept.value.requestID == (if active.requestID == "" && previous.Some? then previous.value.requestID else active.requestID)
  }

  /** What one reconcile can do, case by case. */
  ghost predicate Effect(v: Vault, w: Vault, requestID: string, slot: string, made: Data, promotes: bool, reach: Reach) {
    var ensured := WithStaged(v, slot, requestID, made);
    (w.staged == v.staged || w.staged == ensured.staged) &&
    (w.jobs == v.jobs || (w.jobs == v.jobs[slot := Running] && w.staged == ensured.staged)) &&
    if promotes && (reach == Everything || reach == UpToPrevious)
    then v.active.Some? && SavedFrom(v.previous, v.active.value, w.previous) && w.staged == ensured.staged &&
         slot in v.jobs && v.jobs[slot] == Succeeded &&
         w.active == if reach == Everything then Some(Secret(requestID, ensured.staged[slot].data)) else v.active
    else w.active == v.active && w.previous == v.previous
  }

  lemma ReconcileEffect(v: Vault, requestID: string, slot: string, caReady: bool, made: Data, reach: Reach)
    ensures Effect(v, Reconciled(v, requestID, slot, caReady, made, reach).vault, requestID, slot, made,
                   Promotes(v, requestID, slot, caReady, made), reach)
  {
  }

  lemma EffectKeepsStaged(
    v: Vault, w: Vault, registered: set<Data>, requestID: string, slot: string, username: string, password: string,
    promotes: bool, reach: Reach)
    requires StagedOk(v, registered) && Generated(username, password)
    requires Effect(v, w, requestID, slot, Credential(username, password), promotes, reach)
    ensures StagedOk(w, registered)
    ensures w.active == v.active || (w.active.Some? && WellFormed(w.active.value.data) && w.active.value.data in registered)
  {
    StagingKeeps(v, registered, slot, requestID, username, password);
  }

  lemma ReconcileKeepsInv(s: System, requestID: string, slot: string, caReady: bool, username: string, password: string, reach: Reach)
    requires Inv(s) && Generated(username, password)
    ensures Inv(AfterReconcile(s, requestID, slot, caReady, Credential(username, password), reach))
  {
    var made := Credential(username, password);
    ReconcileEffect(s.vault, requestID, slot, caReady, made, reach);
    EffectKeepsStaged(s.vault, Reconciled(s.vault, requestID, slot, caReady, made, reach).vault, s.registered,
                      requestID, slot, username, password, Promotes(s.vault, requestID, slot, caReady, made), reach);
  }

  lemma BootstrapKeepsInv(s: System, t: System)
    requires Inv(s) && BootstrapStep(s, t)
    ensures Inv(t)
  {
    if s.vault.active.None? {
      var username, password :| Generated(username, password) &&
        t == s.(vault := s.vault.(active := Some(Secret("", Credential(username, password)))),
                bootstrap := Some(Credential(username, password)));
      GeneratedIsWellFormed(username, password);
    }
  }

  lemma StagedAfterJob(v: Vault, registered: set<Data>, w: Vault, registered': set<Data>, slot: string)
    requires StagedOk(v, registered) && w.staged == v.staged && registered <= registered' && slot in v.staged
    requires w.jobs == v.jobs[slot := Failed] || w.jobs == v.jobs - {slot} ||
             (w.jobs == v.jobs[slot := Succeeded] && v.staged[slot].data in registered')
    ensures StagedOk(w, registered')
  {
  }

  lemma JobKeepsInv(s: System, t: System)
    requires Inv(s) && JobStep(s, t)
    ensures Inv(t)
  {
    var slot :| slot in s.vault.jobs && slot in s.vault.staged &&
      (t == s.(vault := s.vault.(jobs := s.vault.jobs[slot := Failed])) ||
       t == s.(vault := s.vault.(jobs := s.vault.jobs[slot := Succeeded]),
               registered := s.registered + {s.vault.staged[slot].data}) ||
       t == s.(vault := s.vault.(jobs := s.vault.jobs - {slot})));
    StagedAfterJob(s.vault, s.registered, t.vault, t.registered, slot);
  }

  lemma RequestKeepsInv(slotOf: string -> string, requestID: string, s: System, t: System)
    requires Inv(s) && ReconcileStep(slotOf, requestID, s, t)
    ensures Inv(t)
  {
    var username, password, caReady, reach :| Generated(username, password) &&
      t == AfterReconcile(s, requestID, slotOf(requestID), caReady, Credential(username, password), reach);
    ReconcileKeepsInv(s, requestID, slotOf(requestID), caReady, username, password, reach);
  }

  lemma StepKeepsInv(slotOf: string -> string, s: System, t: System)
    requires Inv(s) && Step(slotOf, s, t)
    ensures Inv(t)
  {
    if BootstrapStep(s, t) {
      BootstrapKeepsInv(s, t);
    } else if JobStep(s, t) {
      JobKeepsInv(s, t);
    } else {
      var requestID :| ReconcileStep(slotOf, requestID, s, t);
      RequestKeepsInv(slotOf, requestID, s, t);
    }
  }

  lemma RunKeepsInv(slotOf: string -> string, states: seq<System>, j: nat)
    requires Run(slotOf, states) && j < |states|
    ensures Inv(states[j])
  {
    forall s, t | Inv(s) && Step(slotOf, s, t)
      ensures Inv(t)
    {
      StepKeepsInv(slotOf, s, t);
    }
    InvariantHolds(states, s => Init(s), (s, t) => Step(slotOf, s, t), s => Inv(s), j);
  }

  // ------------------------------------------------------------------------------ the theorems

  /** In every state of every run the active credential is well formed and known to work. */
  lemma ActiveIsAlwaysGood(slotOf: string -> string, states: seq<System>, j: nat)
    requires Run(slotOf, states) && j < |states| && states[j].vault.active.Some?
    ensures var data := states[j].vault.active.value.data;
            WellFormed(data) && (states[j].bootstrap == Some(data) || data in states[j].registered)
  {
    RunKeepsInv(slotOf, states, j);
  }

  /**
   `previous` holds the credential that the last completed promotion replaced, exactly unless
   a later promotion was cut off between its two writes (or the two credentials are the same):
   then it holds the active one, and the replaced credential is in neither Secret. On the
   cluster itself this shows as two Secrets with the same data.
   */
  lemma PreviousIsTheReplacedOne(slotOf: string -> string, states: seq<System>, j: nat)
    requires Run(slotOf, states) && j < |states| && states[j].replaced.Some?
    ensures var s := states[j];
            s.vault.previous.Some? && s.vault.active.Some? &&
            (s.replaced == Some(s.vault.previous.value.data) <==>
             !s.interrupted || s.replaced == Some(s.vault.active.value.data)) &&
            (s.replaced == Some(s.vault.previous.value.data) <==>
             s.vault.previous.value.data != s.vault.active.value.data || s.replaced == Some(s.vault.active.value.data))
  {
    RunKeepsInv(slotOf, states, j);
  }

  /** A reconcile that changes `active` has saved the credential it replaces and installs the staged, registered one. */
  lemma PromotionSavesReplaced(s: System, requestID: string, slot: string, caReady: bool, username: string, password: string, reach: Reach)
    requires Inv(s) && Generated(username, password)
    requires Reconciled(s.vault, requestID, slot, caReady, Credential(username, password), reach).vault.active != s.vault.active
    ensures var o := Reconciled(s.vault, requestID, slot, caReady, Credential(username, password), reach);
            o.phase == Ready && !o.err && s.vault.active.Some? &&
            SavedFrom(s.vault.previous, s.vault.active.value, o.vault.previous) &&
            slot in s.vault.staged && o.vault.active == Some(Secret(requestID, s.vault.staged[slot].data)) &&
            s.vault.staged[slot].data in s.registered
  {
    var made := Credential(username, password);
    StagingKeeps(s.vault, s.registered, slot, requestID, username, password);
    ReconcileEffect(s.vault, requestID, slot, caReady, made, reach);
    assert Promotes(s.vault, requestID, slot, caReady, made) && reach == Everything;
    CompleteIsReady(s.vault, requestID, slot, made);
  }

  lemma CompleteIsReady(v: Vault, requestID: string, slot: string, made: Data)
    requires Promotes(v, requestID, slot, true, made)
    ensures Reconciled(v, requestID, slot, true, made, Everything).phase == Ready
    ensures !Reconciled(v, requestID, slot, true, made, Everything).err
  {
  }

  // ------------------------------------------------------------------- promoted means settled

  /** The request has been promoted: its staged credential is the active one. */
  ghost predicate Settled(v: Vault, requestID: string, slot: string) {
    requestID != "" && v.active.Some? && slot in v.staged && WellFormed(v.active.value.data) &&
    WellFormed(v.staged[slot].data) && Promoted(v.active.value, v.staged[slot], requestID)
  }

  lemma ReconcileWhenSettled(v: Vault, requestID: string, slot: string, caReady: bool, made: Data, reach: Reach)
    requires Settled(v, requestID, slot)
    ensures var o := Reconciled(v, requestID, slot, caReady, made, reach);
            o.vault.active == v.active && o.vault.previous == v.previous && Settled(o.vault, requestID, slot) &&
            (o.err || o.phase == Ready)
    ensures !Promotes(v, requestID, slot, caReady, made)
  {
  }

  /** Steps in which the organization keeps asking for this request, or for none. */
  ghost predicate SameRequestStep(slotOf: string -> string, requestID: string, s: System, t: System) {
    BootstrapStep(s, t) || JobStep(s, t) || ReconcileStep(slotOf, requestID, s, t) || ReconcileStep(slotOf, "", s, t)
  }

  ghost predicate SettledAs(requestID: string, slot: string, start: System, s: System) {
    Settled(s.vault, requestID, slot) && s.vault.active == start.vault.active && s.vault.previous == start.vault.previous
  }

  lemma SameRequestStepKeeps(slotOf: string -> string, requestID: string, start: System, s: System, t: System)
    requires SettledAs(requestID, slotOf(requestID), start, s) && SameRequestStep(slotOf, requestID, s, t)
    ensures SettledAs(requestID, slotOf(requestID), start, t)
  {
    if ReconcileStep(slotOf, requestID, s, t) {
      var username, password, caReady, reach :| Generated(username, password) &&
        t == AfterReconcile(s, requestID, slotOf(requestID), caReady, Credential(username, password), reach);
      ReconcileWhenSettled(s.vault, requestID, slotOf(requestID), caReady, Credential(username, password), reach);
    }
  }

  /** However often a promoted request is reconciled, interrupted or not, active and previous are never written again. */
  lemma PromotedIsNeverOverwritten(slotOf: string -> string, requestID: string, start: System, states: seq<System>, j: nat)
    requires IsRun(states, s => s == start, (s, t) => SameRequestStep(slotOf, requestID, s, t)) && j < |states|
    requires Settled(start.vault, requestID, slotOf(requestID))
    ensures states[j].vault.active == start.vault.active && states[j].vault.previous == start.vault.previous
  {
    forall s, t | SettledAs(requestID, slotOf(requestID), start, s) && SameRequestStep(slotOf, requestID, s, t)
      ensures SettledAs(requestID, slotOf(requestID), start, t)
    {
      SameRequestStepKeeps(slotOf, requestID, start, s, t);
    }
    InvariantHolds(states, s => s == start, (s, t) => SameRequestStep(slotOf, requestID, s, t),
                   s => SettledAs(requestID, slotOf(requestID), start, s), j);
  }

  /** Completing a promotion settles the request. */
  lemma PromotionSettles(v: Vault, requestID: string, slot: string, username: string, password: string)
    requires Generated(username, password) && slot in v.staged && WellFormed(v.staged[slot].data)
    requires Promotes(v, requestID, slot, true, Credential(username, password))
    ensures Settled(Reconciled(v, requestID, slot, true, Credential(username, password), Everything).vault, requestID, slot)
  {
  }

  /**
   The case the exact condition leaves out: while request `a` is settled, a promotion of `b`
   is cut off after its first write and then withdrawn. The next reconcile of `a` reports
   Ready, and `previous` is a second copy of the active credential.
   */
  lemma WithdrawnPromotionLosesTheReplacedOne(
    v: Vault, a: string, slotA: string, b: string, slotB: string, username: string, password: string)
    requires Generated(username, password) && slotA != slotB && Settled(v, a, slotA)
    requires Promotes(v, b, slotB, true, Credential(username, password))
    ensures var cut := Reconciled(v, b, slotB, true, Credential(username, password), UpToPrevious).vault;
            var back := Reconciled(cut, a, slotA, true, Credential(username, password), Everything);
            back.phase == Ready && !back.err && back.vault.active == v.active &&
            back.vault.previous.Some? && back.vault.previous.value.data == v.active.value.data
  {
    var made := Credential(username, password);
    var cut := Reconciled(v, b, slotB, true, made, UpToPrevious).vault;
    ReconcileEffect(v, b, slotB, true, made, UpToPrevious);
    assert Settled(cut, a, slotA);
    ReconcileWhenSettled(cut, a, slotA, true, made, Everything);
  }

  // ------------------------------------------------------------ that case happens in a real run

  ghost predicate Reachable(slotOf: string -> string, s: System) {
    exists states: seq<System> :: Run(slotOf, states) && states[|states| - 1] == s
  }

  lemma Then(slotOf: string -> string, s: System, t: System)
    requires Reachable(slotOf, s) && Step(slotOf, s, t)
    ensures Reachable(slotOf, t)
  {
    var states: seq<System> :| Run(slotOf, states) && states[|states| - 1] == s;
    RunExtends(states, s => Init(s), (s, t) => Step(slotOf, s, t), t);
    assert (states + [t])[|states|] == t;
  }

  lemma ReconcileThen(slotOf: string -> string, s: System, requestID: string, username: string, password: string, reach: Reach)
    returns (t: System)
    requires Reachable(slotOf, s) && Generated(username, password)
    ensures t == AfterReconcile(s, requestID, slotOf(requestID), true, Credential(username, password), reach)
    ensures Reachable(slotOf, t)
  {
    t := AfterReconcile(s, requestID, slotOf(requestID), true, Credential(username, password), reach);
    assert ReconcileStep(slotOf, requestID, s, t);
    Then(slotOf, s, t);
  }

  lemma Boot(slotOf: string -> string, username: string, password: string) returns (s: System)
    requires Generated(username, password)
    ensures Reachable(slotOf, s)
    ensures s == System(Vault(Some(Secret("", Credential(username, password))), None, map[], map[]),
                        Some(Credential(username, password)), {}, None, false)
  {
    var start := System(Vault(None, None, map[], map[]), None, {}, None, false);
    assert Run(slotOf, [start]);
    assert [start][0] == start;
    s := System(Vault(Some(Secret("", Credential(username, password))), None, map[], map[]),
                Some(Credential(username, password)), {}, None, false);
    assert BootstrapStep(start, s);
    Then(slotOf, start, s);
  }

  /** A new request is staged and its Job created. */
  lemma FreshReconcile(v: Vault, requestID: string, slot: string, made: Data)
    requires requestID != "" && v.active.Some? && WellFormed(v.active.value.data) && v.active.value.requestID != requestID
    requires slot !in v.staged && slot !in v.jobs
    ensures Reconciled(v, requestID, slot, true, made, UpToJob).vault ==
            v.(staged := v.staged[slot := Secret(requestID, made)], jobs := v.jobs[slot := Running])
    ensures !Promotes(v, requestID, slot, true, made)
  {
  }

  /** A new request: its credential is staged, and its Job registers it. */
  lemma Register(slotOf: string -> string, s: System, requestID: string, username: string, password: string) returns (t: System)
    requires Reachable(slotOf, s) && Generated(username, password) && requestID != ""
    requires s.vault.active.Some? && WellFormed(s.vault.active.value.data) && s.vault.active.value.requestID != requestID
    requires slotOf(requestID) !in s.vault.staged && slotOf(requestID) !in s.vault.jobs
    ensures Reachable(slotOf, t)
    ensures var slot, made := slotOf(requestID), Credential(username, password);
            t == s.(vault := s.vault.(staged := s.vault.staged[slot := Secret(requestID, made)],
                                      jobs := s.vault.jobs[slot := Succeeded]),
                    registered := s.registered + {made})
  {
    var slot, made := slotOf(requestID), Credential(username, password);
    FreshReconcile(s.vault, requestID, slot, made);
    var staged := ReconcileThen(slotOf, s, requestID, username, password, UpToJob);
    t := staged.(vault := staged.vault.(jobs := staged.vault.jobs[slot := Succeeded]),
                 registered := staged.registered + {staged.vault.staged[slot].data});
    assert slot in staged.vault.jobs && JobStep(staged, t);
    Then(slotOf, staged, t);
  }

  /** Rotation of a registered request, to the given point. */
  lemma Rotate(slotOf: string -> string, s: System, requestID: string, username: string, password: string, reach: Reach)
    returns (t: System)
    requires Reachable(slotOf, s) && Generated(username, password) && requestID != "" && reach in {UpToPrevious, Everything}
    requires s.vault.active.Some? && WellFormed(s.vault.active.value.data) && s.vault.active.value.requestID != requestID
    requires var slot := slotOf(requestID);
             slot in s.vault.staged && s.vault.staged[slot] == Secret(requestID, Credential(username, password)) &&
             slot in s.vault.jobs && s.vault.jobs[slot] == Succeeded
    ensures Reachable(slotOf, t) && t.vault.staged == s.vault.staged && t.vault.jobs == s.vault.jobs
    ensures t.vault.previous.Some? && t.vault.previous.value.data == s.vault.active.value.data
    ensures reach == Everything ==> t.vault.active == Some(s.vault.staged[slotOf(requestID)]) &&
                                    t.replaced == Some(s.vault.active.value.data)
    ensures reach == UpToPrevious ==> t.vault.active == s.vault.active && t.replaced == s.replaced
  {
    GeneratedIsWellFormed(username, password);
    t := ReconcileThen(slotOf, s, requestID, username, password, reach);
    var slot := slotOf(requestID);
    assert s.vault.staged[slot := s.vault.staged[slot]] == s.vault.staged;
  }

  /**
   Bootstrap, a complete rotation to `a`, one to `b` that is cut off between the two writes,
   and `a` again: the bootstrap credential that `a` replaced is in neither Secret, and both
   Secrets hold the same data. It takes no more than different slots and passwords.
   */
  lemma ReplacedCredentialCanBeLost(
    slotOf: string -> string, a: string, b: string, user: string, pass: string,
    userA: string, passA: string, userB: string, passB: string)
    returns (end: System)
    requires a != "" && b != "" && slotOf(a) != slotOf(b)
    requires Generated(user, pass) && Generated(userA, passA) && Generated(userB, passB) && pass != passA
    ensures Reachable(slotOf, end) && end.vault.active.Some? && end.vault.previous.Some?
    ensures end.vault.previous.value.data == end.vault.active.value.data
    ensures end.replaced == Some(Credential(user, pass)) && end.replaced != Some(end.vault.previous.value.data)
  {
    GeneratedIsWellFormed(user, pass);
    GeneratedIsWellFormed(userA, passA);
    var booted := Boot(slotOf, user, pass);
    var first := Register(slotOf, booted, a, userA, passA);
    var rotated := Rotate(slotOf, first, a, userA, passA, Everything);
    end := CutAndWithdraw(slotOf, rotated, a, b, userA, passA, userB, passB);
    assert Credential(user, pass)[PasswordKey] != Credential(userA, passA)[PasswordKey];
  }

  lemma CutAndWithdraw(
    slotOf: string -> string, s: System, a: string, b: string, userA: string, passA: string, userB: string, passB: string)
    returns (end: System)
    requires Reachable(slotOf, s) && a != "" && b != "" && slotOf(a) != slotOf(b) && a != b
    requires Generated(userA, passA) && Generated(userB, passB) && WellFormed(Credential(userA, passA))
    requires s.vault.active == Some(Secret(a, Credential(userA, passA))) && slotOf(b) !in s.vault.staged && slotOf(b) !in s.vault.jobs
    requires slotOf(a) in s.vault.staged && s.vault.staged[slotOf(a)] == Secret(a, Credential(userA, passA))
    ensures Reachable(slotOf, end) && end.vault.active == s.vault.active && end.replaced == s.replaced
    ensures end.vault.previous.Some? && end.vault.previous.value.data == Credential(userA, passA)
  {
    var second := Register(slotOf, s, b, userB, passB);
    var cut := Rotate(slotOf, second, b, userB, passB, UpToPrevious);
    assert Settled(cut.vault, a, slotOf(a));
    ReconcileWhenSettled(cut.vault, a, slotOf(a), true, Credential(userA, passA), Everything);
    end := ReconcileThen(slotOf, cut, a, userA, passA, Everything);
  }
}
