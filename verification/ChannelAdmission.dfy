/**
 Updates of a channel's organizations (internal/controller/fabricnetwork_local_org.go,
 fabricnetwork_channel_submission.go, fabricnetwork_external_org.go): admission of a local
 organization to a channel that already runs, and additions and removals of external ones.
 Callers distinguish three outcomes with a flag and a message, so every "not ready" has to
 say why. Any API call may fail.
 */
module ChannelAdmission {
  import opened Wrappers

  // --------------------------------------------------------------------------- artifact bytes

  datatype Reference = ConfigMapKey(name: string, key: string) | SecretKey(name: string, key: string) | NoKey

  /** A ConfigMap or Secret: two key spaces, the first one wins. */
  datatype Keyed = Keyed(first: map<string, string>, second: map<string, string>)

  /** What reading an object by name yields. */
  datatype Read = Found(stored: Keyed) | NotFound | ReadError

  datatype Artifact = Artifact(bytes: string, ready: bool, message: string, err: bool)

  function KeyBytes(kind: string, name: string, key: string, read: Read): Artifact {
    match read
    case ReadError => Artifact("", false, "", true)
    case NotFound => Artifact("", false, kind + " " + name + " is missing", false)
    case Found(stored) =>
      if key in stored.first then Artifact(stored.first[key], true, "", false)
      else if key in stored.second then Artifact(stored.second[key], true, "", false)
      else Artifact("", false, kind + " " + name + " is missing key " + key, false)
  }

  /** channelArtifactBytes: exactly one of the bytes under the referenced key, a reason and an error. */
  function ChannelArtifactBytes(ref: Option<Reference>, read: Read): (a: Artifact)
    ensures a.err <==> ref.Some? && !ref.value.NoKey? && read.ReadError?
    ensures a.ready <==> ref.Some? && !ref.value.NoKey? && read.Found? &&
                         (ref.value.key in read.stored.first || ref.value.key in read.stored.second)
    ensures a.ready && ref.value.key in read.stored.first ==> a.bytes == read.stored.first[ref.value.key]
    ensures a.ready && ref.value.key !in read.stored.first ==> a.bytes == read.stored.second[ref.value.key]
    ensures !a.err ==> (a.ready <==> a.message == "")
  {
    match ref
    case None => Artifact("", false, "applicationOrgRef is required", false)
    case Some(ConfigMapKey(name, key)) => KeyBytes("ConfigMap", name, key, read)
    case Some(SecretKey(name, key)) => KeyBytes("Secret", name, key, read)
    case Some(NoKey) => Artifact("", false, "applicationOrgRef must set configMapKeyRef or secretKeyRef", false)
  }

  // -------------------------------------------------------------------------------- evidence

  datatype Record = Record(channel: string, msp: string, outcome: string)

  datatype Presence = PresentState | AbsentState

  /** The decoded record of an external update; older records leave state and outcome empty. */
  datatype ExternalRecord = ExternalRecord(
    channel: string, msp: string, state: Option<Presence>, operationID: string, anchors: seq<string>, outcome: string)

  /** A result ConfigMap: its decoded record under either key, whether it holds a block, and its envelope. */
  datatype ResultMap = ResultMap(local: Option<Record>, external: Option<ExternalRecord>, block: bool, envelope: string)

  type Results = map<string, ResultMap>

  const Done: set<Option<string>> := {Some("submitted"), Some("alreadyApplied")}

  /** The outcome that a result proves for the admission of this organization. */
  function Proven(r: ResultMap, channel: string, msp: string): Option<string> {
    if r.local.Some? && r.local.value.channel == channel && r.local.value.msp == msp &&
       r.local.value.outcome in {"submitted", "alreadyApplied", "staged"} && r.block
    then Some(r.local.value.outcome) else None
  }

  /** The result is that of a finished admission: of this organization, to this channel, with the block that shows it. */
  predicate Admits(r: ResultMap, channel: string, msp: string) {
    r.local.Some? && r.local.value.channel == channel && r.local.value.msp == msp && r.block &&
    (r.local.value.outcome == "submitted" || r.local.value.outcome == "alreadyApplied")
  }

  /** Some result shows that the organization was admitted. */
  ghost predicate Admitted(results: Results, channel: string, msp: string) {
    exists name <- results :: Admits(results[name], channel, msp)
  }

  lemma AdmitsExactly(r: ResultMap, channel: string, msp: string)
    ensures Admits(r, channel, msp) <==> Proven(r, channel, msp) in Done
  {
  }

  /** The admission waits for signatures. */
  predicate StagedFor(r: ResultMap, channel: string, msp: string) {
    r.local == Some(Record(channel, msp, "staged")) && r.block
  }

  /** The spec of an external organization, with the admin organization and orderer found for it; `operationID` is trimmed. */
  datatype External = External(
    name: string, msp: string, state: Presence, operationID: string, anchors: seq<string>,
    admin: Option<string>, hasOrderer: bool, signedRef: Option<Reference>, signedRead: Read, application: Artifact)

  /** The outcome that a result proves for an external organization: channel, MSP, state, operation and anchors agree. */
  function ExternalProof(org: External, channel: string, r: ResultMap): Option<string> {
    if r.external.None? then None
    else
      var e := r.external.value;
      var state := if e.state.None? then PresentState else e.state.value;
      if e.channel == channel && e.msp == org.msp && state == org.state && e.operationID == org.operationID &&
         (org.state == PresentState && org.anchors != [] ==> e.anchors == org.anchors)
      then Some(if e.outcome == "" then "submitted" else e.outcome) else None
  }

  /** A finished record for exactly this channel, MSP, state and operation. */
  predicate ExternalDone(org: External, channel: string, e: ExternalRecord) {
    e.channel == channel && e.msp == org.msp && e.operationID == org.operationID &&
    (e.state == Some(org.state) || (e.state == None && org.state == PresentState)) &&
    e.outcome in {"", "submitted", "alreadyApplied"} &&
    (org.state == PresentState && org.anchors != [] ==> e.anchors == org.anchors)
  }

  ghost predicate ExternalEvident(results: Results, channel: string, org: External) {
    exists name <- results :: results[name].external.Some? && ExternalDone(org, channel, results[name].external.value)
  }

  datatype JobState = Running | Succeeded | Failed

  /** Object names; none of them has to be free of collisions. */
  datatype Names = Names(
    result: (string, string) -> string, job: (string, string) -> string,
    externalResult: (string, External) -> string, externalJob: (string, External) -> string,
    signed: (string, string, string) -> string)

  /** One listed organization that is not anchored yet: its MSP and the signed handoff, if any. */
  datatype Joining = Joining(name: string, msp: string, signedRef: Option<Reference>, signedRead: Read)

  /** API calls that may fail. */
  datatype Call = GetEvidence | GetStaged | WriteInput | GetResult | WriteJob | GetJob | GetSubmitted | WriteObjects

  /** The result of a signed submission of what is staged under `base`, if the handoff is there. */
  function SignedName(names: Names, base: string, ref: Option<Reference>, read: Read, envelope: string): Option<string> {
    var artifact := ChannelArtifactBytes(ref, read);
    if artifact.ready && envelope != "" then Some(names.signed(base, envelope, artifact.bytes)) else None
  }

  /** Exactly when a local organization counts as admitted: by the result of its own update, or by that of its signed handoff. */
  predicate AdmittedBy(names: Names, channel: string, admin: string, joining: Joining, results: Results) {
    var name := names.result(admin, joining.name);
    name in results &&
    (Admits(results[name], channel, joining.msp) ||
     (StagedFor(results[name], channel, joining.msp) && joining.signedRef.Some? &&
      var signed := SignedName(names, names.job(admin, joining.name), joining.signedRef, joining.signedRead, results[name].envelope);
      signed.Some? && signed.value in results && Admits(results[signed.value], channel, joining.msp)))
  }

  /** What has to be written for the organization is there. */
  predicate Applicable(org: External) {
    org.state == PresentState ==> !org.application.err && org.application.message == ""
  }

  /** The update of the external organization has a result, or its Job exists. */
  predicate ExternalStarted(names: Names, org: External, results: Results, jobs: map<string, JobState>)
    requires org.admin.Some?
  {
    names.externalResult(org.admin.value, org) in results || names.externalJob(org.admin.value, org) in jobs
  }

  /** Existing Jobs stay as they are, new ones run. */
  predicate OnlyStarts(before: map<string, JobState>, after: map<string, JobState>) {
    (forall name <- before :: name in after && after[name] == before[name]) &&
    forall name <- after :: name in before || after[name] == Running
  }

  /** Exactly when an external organization counts as done. */
  predicate ExternalReady(names: Names, channel: string, org: External, results: Results) {
    org.admin.Some? && org.hasOrderer &&
    var name := names.externalResult(org.admin.value, org);
    name in results &&
    match ExternalProof(org, channel, results[name])
    case None => false
    case Some(outcome) =>
      outcome in {"submitted", "alreadyApplied"} || (outcome == "staged" && ExternalSigned(names, channel, org, results, name))
  }

  predicate ExternalSigned(names: Names, channel: string, org: External, results: Results, name: string)
    requires org.admin.Some? && name in results
  {
    org.signedRef.Some? &&
    var signed := SignedName(names, names.externalJob(org.admin.value, org), org.signedRef, org.signedRead, results[name].envelope);
    signed.Some? && signed.value in results && ExternalProof(org, channel, results[signed.value]) in Done
  }

  /** Readiness rests on a finished record of the organization's channel, MSP, state and operation. */
  lemma ExternalReadyIsEvident(names: Names, channel: string, org: External, results: Results)
    requires ExternalReady(names, channel, org, results)
    ensures ExternalEvident(results, channel, org)
  {
    var name := names.externalResult(org.admin.value, org);
    if ExternalProof(org, channel, results[name]) in Done {
      ProofIsDone(org, channel, results[name]);
    } else {
      var signed := SignedName(names, names.externalJob(org.admin.value, org), org.signedRef, org.signedRead, results[name].envelope);
      ProofIsDone(org, channel, results[signed.value]);
    }
  }

  lemma ProofIsDone(org: External, channel: string, r: ResultMap)
    ensures ExternalProof(org, channel, r) in Done <==> r.external.Some? && ExternalDone(org, channel, r.external.value)
  {
  }

  class Admissions {
    var results: Results
    var jobs: map<string, JobState>

    /** localOrgAddEvidenceNamed. */
    method EvidenceNamed(name: string, channel: string, msp: string) returns (outcome: Option<string>, message: string)
      ensures outcome == if name in results then Proven(results[name], channel, msp) else None
      ensures message == "" <==> name !in results || outcome.Some?
    {
      if name !in results {
        return None, "";
      }
      var result := results[name];
      if result.local.None? || result.local.value.channel != channel || result.local.value.msp != msp {
        return None, "Waiting for local org update result for channel " + channel;
      }
      var found := result.local.value.outcome;
      if found != "submitted" && found != "alreadyApplied" && found != "staged" {
        return None, "Waiting for local org update result";
      }
      if !result.block {
        return None, "Waiting for refreshed channel block";
      }
      return Some(found), "";
    }

    method EnsureJob(name: string)
      modifies this`jobs
      ensures jobs == if name in old(jobs) then old(jobs) else old(jobs)[name := Running]
    {
      if name !in jobs {
        jobs := jobs[name := Running];
      }
    }

    /** reconcileSignedChannelUpdate: whatever it returns without an error, it says what it waits for. */
    method ReconcileSignedChannelUpdate(
      names: Names, base: string, ref: Option<Reference>, read: Read, envelope: string, faults: set<Call>)
      returns (resultName: Option<string>, message: string, err: bool)
      modifies this`jobs
      ensures !err ==> message != "" && resultName == SignedName(names, base, ref, read, envelope)
      ensures err ==> resultName == None && (faults != {} || ChannelArtifactBytes(ref, read).err)
      ensures resultName.Some? ==> resultName.value in results || resultName.value in jobs
      ensures OnlyStarts(old(jobs), jobs)
    {
      var artifact := ChannelArtifactBytes(ref, read);
      if artifact.err || !artifact.ready {
        return None, artifact.message, artifact.err;
      }
      if GetStaged in faults {
        return None, "", true;
      }
      if envelope == "" {
        return None, "Waiting for staged config update envelope", false;
      }
      var name := names.signed(base, envelope, artifact.bytes);
      if WriteInput in faults || GetResult in faults {
        return None, "", true;
      }
      if name in results {
        return Some(name), "Waiting for signed channel update evidence", false;
      }
      if WriteJob in faults {
        return None, "", true;
      }
      EnsureJob(name);
      if GetJob in faults {
        return None, "", true;
      }
      if jobs[name] == Failed {
        return Some(name), "Signed channel update Job failed: " + name, false;
      }
      return Some(name), "Waiting for signed channel update Job " + name, false;
    }

    /** localOrgAddReadiness: never ready, always a reason. */
    method LocalOrgAddReadiness(name: string) returns (message: string)
      ensures message != ""
    {
      if name !in jobs {
        return "Waiting for local org channel update Job";
      }
      if jobs[name] == Failed {
        return "local org channel update Job failed";
      }
      if jobs[name] == Succeeded {
        return "Waiting for local org update result ConfigMap";
      }
      return "Waiting for local org channel update Job";
    }

    /** reconcileLocalOrgAdd: ready only on proof of admission, and otherwise with a reason or an error. */
    method ReconcileLocalOrgAdd(names: Names, channel: string, admin: string, joining: Joining, faults: set<Call>)
      returns (ready: bool, message: string, err: bool)
      modifies this`jobs
      ensures !err && !ready ==> message != ""
      ensures ready ==> !err && Admitted(results, channel, joining.msp)
      ensures ready ==> AdmittedBy(names, channel, admin, joining, results)
      ensures AdmittedBy(names, channel, admin, joining, results) && faults == {} ==> ready
      ensures names.result(admin, joining.name) !in results && faults == {} ==> !err && names.job(admin, joining.name) in jobs
      ensures OnlyStarts(old(jobs), jobs)
    {
      var name := names.result(admin, joining.name);
      if name in results {
        AdmitsExactly(results[name], channel, joining.msp);
      }
      if GetEvidence in faults {
        return false, "", true;
      }
      var outcome, reason := EvidenceNamed(name, channel, joining.msp);
      if outcome.Some? {
        if outcome.value == "staged" {
          ready, message, err := AdmitSigned(names, channel, admin, joining, results[name].envelope, faults);
          return;
        }
        return true, "", false;
      }
      if reason != "" {
        return false, reason, false;
      }
      if WriteObjects in faults || WriteJob in faults {
        return false, "", true;
      }
      EnsureJob(names.job(admin, joining.name));
      if GetJob in faults {
        return false, "", true;
      }
      reason := LocalOrgAddReadiness(names.job(admin, joining.name));
      return false, reason, false;
    }

    ghost predicate SignedAdmits(names: Names, channel: string, admin: string, joining: Joining, envelope: string)
      reads this`results
    {
      var signed := SignedName(names, names.job(admin, joining.name), joining.signedRef, joining.signedRead, envelope);
      signed.Some? && signed.value in results && Admits(results[signed.value], channel, joining.msp)
    }

    /** The branch for an admission that is staged for signatures. */
    method AdmitSigned(names: Names, channel: string, admin: string, joining: Joining, envelope: string, faults: set<Call>)
      returns (ready: bool, message: string, err: bool)
      modifies this`jobs
      ensures !err && !ready ==> message != ""
      ensures ready ==> !err && joining.signedRef.Some? && SignedAdmits(names, channel, admin, joining, envelope)
      ensures joining.signedRef.Some? && SignedAdmits(names, channel, admin, joining, envelope) && faults == {} ==> ready
      ensures OnlyStarts(old(jobs), jobs)
    {
      if joining.signedRef.None? {
        return false, "Waiting for channel config signatures", false;
      }
      var resultName, waiting, failed := ReconcileSignedChannelUpdate(
        names, names.job(admin, joining.name), joining.signedRef, joining.signedRead, envelope, faults);
      if failed || resultName.None? {
        return false, waiting, failed;
      }
      if GetSubmitted in faults {
        return false, waiting, true;
      }
      var submitted, _ := EvidenceNamed(resultName.value, channel, joining.msp);
      if resultName.value in results {
        AdmitsExactly(results[resultName.value], channel, joining.msp);
      }
      if submitted.None? || (submitted.value != "submitted" && submitted.value != "alreadyApplied") {
        return false, waiting, false;
      }
      return true, "", false;
    }

    /** reconcileExternalOrgUpdate: ready exactly on the records that ExternalReady asks for. */
    method ReconcileExternalOrgUpdate(names: Names, channel: string, org: External, faults: set<Call>)
      returns (ready: bool, message: string, err: bool)
      modifies this`jobs
      ensures ready ==> !err && ExternalReady(names, channel, org, results)
      ensures ExternalReady(names, channel, org, results) && faults == {} ==> ready
      ensures !err && faults == {} && org.admin.Some? && org.hasOrderer && Applicable(org) ==>
                ExternalStarted(names, org, results, jobs)
      ensures OnlyStarts(old(jobs), jobs)
    {
      if org.admin.None? {
        return false, "Waiting for a local founder admin org", false;
      }
      if !org.hasOrderer {
        return false, "Waiting for a local orderer", false;
      }
      if GetEvidence in faults {
        return false, "", true;
      }
      var name := names.externalResult(org.admin.value, org);
      var outcome := if name in results then ExternalProof(org, channel, results[name]) else None;
      if outcome.Some? {
        if outcome.value == "submitted" || outcome.value == "alreadyApplied" {
          return true, "", false;
        }
        if outcome.value == "staged" {
          if org.signedRef.None? {
            return false, "Waiting for manual channel config update signatures", false;
          }
          ready, message, err := SubmitExternal(names, channel, org, name, faults);
          return;
        }
        return false, "", false;
      }
      if name in results {
        return false, "Waiting for external org update result", false;
      }
      message, err := StartExternal(names, org, faults);
      ready := false;
    }

    /** The branch for an update that is staged and signed. */
    method SubmitExternal(names: Names, channel: string, org: External, name: string, faults: set<Call>)
      returns (ready: bool, message: string, err: bool)
      requires org.admin.Some? && org.signedRef.Some? && name in results
      modifies this`jobs
      ensures ready ==> !err && ExternalSigned(names, channel, org, results, name)
      ensures ExternalSigned(names, channel, org, results, name) && faults == {} ==> ready
      ensures OnlyStarts(old(jobs), jobs)
    {
      ready := false;
      var resultName: Option<string>;
      resultName, message, err := ReconcileSignedChannelUpdate(
        names, names.externalJob(org.admin.value, org), org.signedRef, org.signedRead, results[name].envelope, faults);
      if err || resultName.None? {
        return;
      }
      if GetSubmitted in faults || GetJob in faults {
        return false, message, true;
      }
      if resultName.value in results && ExternalProof(org, channel, results[resultName.value]) in Done {
        return true, "", false;
      }
    }

    /** The branch without a result: inputs, then the Job; never ready, always a reason or an error. */
    method StartExternal(names: Names, org: External, faults: set<Call>) returns (message: string, err: bool)
      requires org.admin.Some?
      modifies this`jobs
      ensures !err ==> message != ""
      ensures faults == {} && Applicable(org) ==> !err && names.externalJob(org.admin.value, org) in jobs
      ensures OnlyStarts(old(jobs), jobs)
    {
      if org.state == PresentState {
        if org.application.err {
          return "", true;
        }
        if org.application.message != "" {
          return org.name + ": " + org.application.message, false;
        }
      }
      if WriteObjects in faults || WriteJob in faults {
        return "", true;
      }
      var name := names.externalJob(org.admin.value, org);
      EnsureJob(name);
      if GetJob in faults {
        return "", true;
      }
      if jobs[name] == Failed {
        return org.name + ": external org channel update Job failed", false;
      }
      return org.name + ": Waiting for external org channel update Job", false;
    }

    /** reconcileExternalOrgUpdates: no message and no error only if every organization is ready. */
    method ReconcileExternalOrgUpdates(names: Names, channel: string, orgs: seq<External>, faults: set<Call>)
      returns (message: string, err: bool)
      modifies this`jobs
      ensures !err && message == "" ==> forall i :: 0 <= i < |orgs| ==> ExternalReady(names, channel, orgs[i], results)
      ensures faults == {} && (forall i :: 0 <= i < |orgs| ==> ExternalReady(names, channel, orgs[i], results)) ==>
                !err && message == ""
      ensures !err && faults == {} ==> forall i :: 0 <= i < |orgs| && orgs[i].admin.Some? && orgs[i].hasOrderer && Applicable(orgs[i]) ==>
                ExternalStarted(names, orgs[i], results, jobs)
      ensures OnlyStarts(old(jobs), jobs)
    {
      var allReady, pending := true, "";
      err := false;
      for i := 0 to |orgs|
        invariant allReady ==> forall k :: 0 <= k < i ==> ExternalReady(names, channel, orgs[k], results)
        invariant faults == {} && (forall k :: 0 <= k < |orgs| ==> ExternalReady(names, channel, orgs[k], results)) ==> allReady
        invariant faults == {} ==> forall k :: 0 <= k < i && orgs[k].admin.Some? && orgs[k].hasOrderer && Applicable(orgs[k]) ==>
          ExternalStarted(names, orgs[k], results, jobs)
        invariant OnlyStarts(old(jobs), jobs)
      {
        var ready, waiting, failed := ReconcileExternalOrgUpdate(names, channel, orgs[i], faults);
        if failed {
          return "", true;
        }
        if !ready {
          allReady := false;
          if pending == "" && waiting != "" {
            pending := waiting;
          }
        }
      }
      message := if allReady then "" else if pending != "" then pending else "Waiting for external org channel update Jobs";
    }
  }
}
