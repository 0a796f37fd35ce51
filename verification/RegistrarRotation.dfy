/**
 Rotation of the CA bootstrap registrar
 (internal/controller/fabricnetwork_ca_registrar_rotation.go): a new credential is staged, a
 Job registers it at the CA, and then two Secrets are written in turn, `previous` and
 `active`. The reconciler may be cut off between any two API calls.

 Staged Secret and Job of one request share a name digest, their slot; distinct requests may
 collide on a slot.
 */
module RegistrarRotation {
  import opened Wrappers
  import opened Whitespace

  type Data = map<string, string>

  datatype Secret = Secret(requestID: string, data: Data)

  const UsernameKey := "username"
  const PasswordKey := "password"
  const UserPassKey := "user-pass"
  const Keys: seq<string> := [UsernameKey, PasswordKey, UserPassKey]

  datatype JobState = Running | Succeeded | Failed

  /** The Secrets and Jobs of one organization's registrar. */
  datatype Vault = Vault(
    active: Option<Secret>, previous: Option<Secret>, staged: map<string, Secret>, jobs: map<string, JobState>)

  datatype Phase = Idle | Failing | WaitingForCA | Rotating | Ready

  /** `err` stands for the error that makes the controller try again later. */
  datatype Outcome = Outcome(vault: Vault, phase: Phase, err: bool)

  /** How far a reconcile gets before an API call fails. */
  datatype Reach = Nothing | UpToStaged | UpToJob | UpToPrevious | Everything

  // ---------------------------------------------------------------------------- credentials

  function Field(data: Data, key: string): string {
    if key in data then data[key] else ""
  }

  /** enrollmentCredentialSecretValidationError reports nothing. */
  predicate WellFormed(data: Data) {
    (forall key <- Keys :: key in data) &&
    Trim(Field(data, UsernameKey)) != "" && Trim(Field(data, PasswordKey)) != "" &&
    Trim(Field(data, UserPassKey)) == Trim(Field(data, UsernameKey)) + ":" + Trim(Field(data, PasswordKey))
  }

  /** The three keys are there, the first two say something, and the third joins them. */
  lemma WellFormedExactly(data: Data)
    ensures WellFormed(data) <==>
      "username" in data && "password" in data && "user-pass" in data &&
      Trim(data["username"]) != "" && Trim(data["password"]) != "" &&
      Trim(data["user-pass"]) == Trim(data["username"]) + ":" + Trim(data["password"])
  {
    assert Keys[0] == "username" && Keys[1] == "password" && Keys[2] == "user-pass";
  }

  /** A generated credential: neither part is empty or contains white space. */
  predicate Generated(username: string, password: string) {
    username != "" && password != "" && SpaceFree(username) && SpaceFree(password)
  }

  function Credential(username: string, password: string): Data {
    map[UsernameKey := username, PasswordKey := password, UserPassKey := username + ":" + password]
  }

  lemma GeneratedIsWellFormed(username: string, password: string)
    requires Generated(username, password)
    ensures WellFormed(Credential(username, password))
  {
    TrimSpaceFree(username);
    TrimSpaceFree(password);
    TrimSpaceFree(username + ":" + password);
  }

  // ------------------------------------------------------------- what one reconcile does

  /** ensureSecret: created if absent; otherwise only the annotation, and the data only if it is not well formed. */
  function WithStaged(v: Vault, slot: string, requestID: string, made: Data): Vault {
    v.(staged := v.staged[slot := if slot in v.staged && WellFormed(v.staged[slot].data)
                                  then Secret(requestID, v.staged[slot].data) else Secret(requestID, made)])
  }

  /** The active Secret already carries this request and its staged credential. */
  predicate Promoted(active: Secret, staged: Secret, requestID: string) {
    active.requestID == requestID && forall key <- Keys :: Field(active.data, key) == Field(staged.data, key)
  }

  function WithJob(v: Vault, slot: string): Vault {
    if slot in v.jobs then v else v.(jobs := v.jobs[slot := Running])
  }

  /** The Secret that keeps the replaced credential; its annotation is merged into an existing one. */
  function Kept(previous: Option<Secret>, active: Secret): Secret {
    Secret(if active.requestID != "" then active.requestID
           else if previous.Some? then previous.value.requestID else "", active.data)
  }

  /** reconcileCARegistrarRotation, cut off after `reach`. */
  function Reconciled(v: Vault, requestID: string, slot: string, caReady: bool, made: Data, reach: Reach): Outcome {
    if requestID == "" then Outcome(v, Idle, false)
    else if reach == Nothing then Outcome(v, Idle, true)
    else
      var staging := WithStaged(v, slot, requestID, made);
      if v.active.None? || !WellFormed(v.active.value.data) then Outcome(staging, Failing, false)
      else if Promoted(v.active.value, staging.staged[slot], requestID) then Outcome(staging, Ready, false)
      else if !caReady then Outcome(staging, WaitingForCA, false)
      else if reach == UpToStaged then Outcome(staging, Idle, true)
      else Rotated(WithJob(staging, slot), v.active.value, requestID, slot, reach)
  }

  function Rotated(v: Vault, active: Secret, requestID: string, slot: string, reach: Reach): Outcome
    requires slot in v.jobs && slot in v.staged
  {
    match v.jobs[slot]
    case Failed => Outcome(v, Failing, false)
    case Running => Outcome(v, Rotating, false)
    case Succeeded =>
      if reach == UpToJob then Outcome(v, Idle, true)
      else
        var saved := v.(previous := Some(Kept(v.previous, active)));
        if reach == UpToPrevious then Outcome(saved, Idle, true)
        else Outcome(saved.(active := Some(Secret(requestID, v.staged[slot].data))), Ready, false)
  }

  /** caRegistrarRotationBlocksWork: enrollment waits. */
  predicate BlocksWork(phase: Phase) {
    phase == WaitingForCA || phase == Rotating
  }

  /** The request's own staged credential: an existing well-formed one, or else the one just made. */
  function OwnCredential(v: Vault, slot: string, made: Data): Data {
    if slot in v.staged && WellFormed(v.staged[slot].data) then v.staged[slot].data else made
  }

  /** The active Secret carries this request and this credential. */
  predicate Carries(active: Secret, requestID: string, credential: Data) {
    active.requestID == requestID && Field(active.data, "username") == Field(credential, "username") &&
    Field(active.data, "password") == Field(credential, "password") &&
    Field(active.data, "user-pass") == Field(credential, "user-pass")
  }

  lemma PromotedExactly(active: Secret, staged: Secret, requestID: string)
    ensures Promoted(active, staged, requestID) <==> Carries(active, requestID, staged.data)
  {
    assert Keys[0] == "username" && Keys[1] == "password" && Keys[2] == "user-pass";
  }

  /** What the Job of the request makes of a rotation that has got as far as the Job. */
  ghost predicate JobDecides(v: Vault, slot: string, reach: Reach, o: Outcome) {
    slot in o.vault.jobs && o.vault.jobs[slot] == (if slot in v.jobs then v.jobs[slot] else Running) &&
    (o.phase == Failing <==> slot in v.jobs && v.jobs[slot] == Failed) &&
    (o.phase == Rotating <==> slot !in v.jobs || v.jobs[slot] == Running) &&
    (o.phase == Ready <==> slot in v.jobs && v.jobs[slot] == Succeeded && reach == Everything) &&
    (o.err <==> slot in v.jobs && v.jobs[slot] == Succeeded && reach != Everything)
  }

  /**
   The phase that a reconcile reports. Without a well-formed active Secret the rotation has
   failed; a promoted request is Ready; any other waits for the CA and then says what its Job
   says, and it blocks enrollment exactly while it waits or its Job is new or running.
   */
  lemma PhaseExactly(v: Vault, requestID: string, slot: string, caReady: bool, made: Data, reach: Reach)
    requires requestID != "" && reach != Nothing
    ensures var o := Reconciled(v, requestID, slot, caReady, made, reach);
            o.vault.staged == v.staged[slot := Secret(requestID, OwnCredential(v, slot, made))] &&
            (v.active.None? || !WellFormed(v.active.value.data) ==> o.phase == Failing && !o.err && o.vault.jobs == v.jobs) &&
            (v.active.Some? && WellFormed(v.active.value.data) ==>
              var waits := !Carries(v.active.value, requestID, OwnCredential(v, slot, made));
              (!waits ==> o.phase == Ready && !o.err && o.vault.jobs == v.jobs) &&
              (o.phase == WaitingForCA <==> waits && !caReady) &&
              (waits && caReady && reach != UpToStaged ==> JobDecides(v, slot, reach, o)) &&
              (waits && caReady && reach == UpToStaged ==> o.err) &&
              (!o.err ==>
                (BlocksWork(o.phase) <==> waits && (!caReady || slot !in v.jobs || v.jobs[slot] == Running))))
  {
    if v.active.Some? {
      PromotedExactly(v.active.value, WithStaged(v, slot, requestID, made).staged[slot], requestID);
    }
  }

  // --------------------------------------------------------------------------- the reconciler

  class Registrar {
    var active: Option<Secret>
    var previous: Option<Secret>
    var staged: map<string, Secret>
    var jobs: map<string, JobState>

    ghost function Snapshot(): Vault
      reads this
    {
      Vault(active, previous, staged, jobs)
    }

    /** ensureCARegistrarStagedSecret. */
    method EnsureStaged(slot: string, requestID: string, made: Data) returns (secret: Secret)
      modifies this`staged
      ensures Snapshot() == WithStaged(old(Snapshot()), slot, requestID, made)
      ensures slot in staged && secret == staged[slot]
    {
      if slot !in staged {
        staged := staged[slot := Secret(requestID, made)];
      } else {
        var existing := staged[slot].(requestID := requestID);
        if !WellFormed(existing.data) {
          existing := existing.(data := made);
        }
        staged := staged[slot := existing];
      }
      secret := staged[slot];
    }

    /** upsertSecretData for `previous`: labels and annotations are merged, the data is replaced. */
    method UpsertPrevious(replaced: Secret)
      modifies this`previous
      ensures previous == Some(Kept(old(previous), replaced))
    {
      if previous.None? {
        previous := Some(replaced);
      } else {
        var existing := previous.value;
        if replaced.requestID != "" && existing.requestID != replaced.requestID {
          existing := existing.(requestID := replaced.requestID);
        }
        if existing.data != replaced.data {
          existing := existing.(data := replaced.data);
        }
        previous := Some(existing);
      }
    }

    /** promoteCARegistrarSecret: first `previous`, then `active`. */
    method Promote(replaced: Secret, secret: Secret, requestID: string, reach: Reach) returns (err: bool)
      requires reach == UpToPrevious || reach == Everything
      modifies this`previous, this`active
      ensures previous == Some(Kept(old(previous), replaced))
      ensures active == if reach == Everything then Some(Secret(requestID, secret.data)) else old(active)
      ensures err <==> reach == UpToPrevious
    {
      UpsertPrevious(replaced);
      if reach == UpToPrevious {
        return true;
      }
      active := Some(Secret(requestID, secret.data));
      return false;
    }

    method Reconcile(requestID: string, slot: string, caReady: bool, made: Data, reach: Reach)
      returns (phase: Phase, err: bool)
      modifies this
      ensures Outcome(Snapshot(), phase, err) == Reconciled(old(Snapshot()), requestID, slot, caReady, made, reach)
    {
      phase, err := Idle, false;
      var found := active;
      if requestID == "" {
        return;
      }
      if reach == Nothing {
        return Idle, true;
      }
      var secret := EnsureStaged(slot, requestID, made);
      if found.None? || !WellFormed(found.value.data) {
        return Failing, false;
      }
      if Promoted(found.value, secret, requestID) {
        return Ready, false;
      }
      if !caReady {
        return WaitingForCA, false;
      }
      if reach == UpToStaged {
        return Idle, true;
      }
      if slot !in jobs {
        jobs := jobs[slot := Running];
      }
      if jobs[slot] == Failed {
        return Failing, false;
      }
      if jobs[slot] == Running {
        return Rotating, false;
      }
      if reach == UpToJob {
        return Idle, true;
      }
      err := Promote(found.value, secret, requestID, reach);
      phase := if err then Idle else Ready;
    }
  }
}
