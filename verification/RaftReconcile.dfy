/**
 The controller's side of a Raft update: reconcileRaftUpdate and reconcileRaftSubmission
 (internal/controller/fabricnetwork_raft_update.go, fabricnetwork_raft_submission.go). Each
 call looks only at durable objects, moves the operation at most one stage on, and may be cut
 short by a failing API call.
 */
module RaftReconcile {
  import opened Wrappers
  import opened Json
  import opened Consenters
  import opened RaftPlan
  import opened FabricLedger
  import opened SubmissionNodes
  import opened RaftSubmission

  /** SHA-256 over canonical JSON, and the object names cut from it. */
  datatype Digests = Digests(
    plan: (string, string, string, Plan) -> string, signed: Envelope -> string,
    stageName: (string, string, string) -> string, submitName: (string, string, Envelope) -> string)

  /** No two operations and no two envelopes that ever meet share a digest; names may well collide. */
  ghost predicate CollisionFree(d: Digests) {
    (forall i, a, o, p, i', a', o', p' :: d.plan(i, a, o, p) == d.plan(i', a', o', p') ==>
      i == i' && a == a' && o == o' && p == p') &&
    (forall e, e' :: d.signed(e) == d.signed(e') ==> e == e')
  }

  datatype Fetch<T> = Unreachable | NotThere | Available(value: T)

  /** One channel's raftUpdate as the reconciler finds it; `wellFormed` is validateChannelRaftUpdate. */
  datatype Request = Request(
    channel: string, id: string, adminOrg: string, orderer: string, source: string, wellFormed: bool,
    plan: Fetch<Supplied>, wantsSubmission: bool, signed: Fetch<Envelope>, cluster: Cluster)

  datatype JobInput =
    | StagingInput(channel: string, plan: Plan, request: Receipt)
    | SubmissionInput(input: Input)

  datatype JobState = Running | Succeeded | Failing
  datatype Script = Staging | Submission
  datatype JobRecord = JobRecord(script: Script, state: JobState)

  /** A result ConfigMap; None where a key is missing, empty or cannot be decoded. */
  datatype Published = Published(receipt: Option<Receipt>, block: Option<Block>, envelope: Option<Envelope>)

  datatype World = World(results: map<string, Published>, inputs: map<string, JobInput>, jobs: map<string, JobRecord>)

  datatype Phase = PendingPhase | AwaitingSignatures | SubmittedPhase | AppliedPhase | FailedPhase

  datatype Status = Status(
    phase: Phase, ready: bool, message: string, planHash: string, sequence: string, action: string, name: string)

  datatype Call = GetStageResult | GetSubmitResult | WriteRbac | WriteInput | WriteJob | GetJob

  // -------------------------------------------------------------------- what must be shown

  function PlanHash(d: Digests, req: Request, plan: Plan): string {
    d.plan(req.id, req.adminOrg, req.orderer, plan)
  }

  function StageName(d: Digests, req: Request, plan: Plan): string {
    d.stageName(req.channel, req.id, PlanHash(d, req, plan))
  }

  function SubmitName(d: Digests, req: Request, plan: Plan, signed: Envelope): string {
    d.submitName(req.channel, PlanHash(d, req, plan), signed)
  }

  function Expected(d: Digests, req: Request, plan: Plan): Receipt {
    Receipt(req.channel, req.id, PlanHash(d, req, plan), plan.sequence, plan.action, "", "")
  }

  function ExpectedSigned(d: Digests, req: Request, plan: Plan, signed: Envelope): Receipt {
    Expected(d, req, plan).(signedHash := d.signed(signed))
  }

  function Reviewed(lib: Library, req: Request): Option<Plan> {
    if req.wellFormed && req.plan.Available? then ValidatePlan(lib, req.plan.value, req.channel) else None
  }

  /** The staging receipt agrees with the operation and was written with this outcome. */
  predicate Staged(d: Digests, req: Request, plan: Plan, p: Published, outcome: string) {
    p.receipt == Some(Expected(d, req, plan).(outcome := outcome)) && p.block.Some? &&
    (outcome == "staged" ==> p.envelope.Some? && plan.action != "AlreadyApplied") &&
    (outcome == "alreadyApplied" ==> plan.action == "AlreadyApplied")
  }

  /** The submission receipt agrees with operation, plan and signed envelope. */
  predicate Vouches(d: Digests, req: Request, plan: Plan, signed: Envelope, p: Published) {
    p.receipt.Some? && p.receipt.value.(outcome := "") == ExpectedSigned(d, req, plan, signed) &&
    p.receipt.value.outcome in {"submitted", "alreadyApplied"} && p.block.Some? && p.envelope == Some(signed)
  }

  /** Field by field: what staging evidence has to show. */
  lemma StagedExactly(d: Digests, req: Request, plan: Plan, p: Published, outcome: string)
    requires outcome == "staged" || outcome == "alreadyApplied"
    ensures Staged(d, req, plan, p, outcome) <==>
      p.receipt.Some? && p.block.Some? && p.receipt.value.channel == req.channel && p.receipt.value.operationID == req.id &&
      p.receipt.value.planHash == d.plan(req.id, req.adminOrg, req.orderer, plan) && p.receipt.value.sequence == plan.sequence &&
      p.receipt.value.action == plan.action && p.receipt.value.outcome == outcome && p.receipt.value.signedHash == "" &&
      (if outcome == "staged" then p.envelope.Some? && plan.action != "AlreadyApplied" else plan.action == "AlreadyApplied")
  {
  }

  /** Field by field: what submission evidence has to show. */
  lemma VouchesExactly(d: Digests, req: Request, plan: Plan, signed: Envelope, p: Published)
    ensures Vouches(d, req, plan, signed, p) <==>
      p.receipt.Some? && p.block.Some? && p.receipt.value.channel == req.channel && p.receipt.value.operationID == req.id &&
      p.receipt.value.planHash == d.plan(req.id, req.adminOrg, req.orderer, plan) && p.receipt.value.sequence == plan.sequence &&
      p.receipt.value.action == plan.action && p.receipt.value.signedHash == d.signed(signed) &&
      (p.receipt.value.outcome == "submitted" || p.receipt.value.outcome == "alreadyApplied") && p.envelope == Some(signed)
  {
  }

  /** The staging evidence that lets a signed submission begin. */
  predicate ReadyToSubmit(d: Digests, req: Request, plan: Plan, w: World) {
    var name := StageName(d, req, plan);
    req.wantsSubmission && name in w.results && Staged(d, req, plan, w.results[name], "staged")
  }

  /** Exactly when a reconcile reports the update as done. */
  predicate ReadyBy(lib: Library, d: Digests, req: Request, w: World, faults: set<Call>) {
    Reviewed(lib, req).Some? && GetStageResult !in faults && ReadyWith(d, req, Reviewed(lib, req).value, w, faults)
  }

  predicate ReadyWith(d: Digests, req: Request, plan: Plan, w: World, faults: set<Call>) {
    var name := StageName(d, req, plan);
    name in w.results &&
    (Staged(d, req, plan, w.results[name], "alreadyApplied") ||
     (ReadyToSubmit(d, req, plan, w) && SubmissionShown(d, req, plan, w, faults)))
  }

  predicate SubmissionShown(d: Digests, req: Request, plan: Plan, w: World, faults: set<Call>) {
    req.signed.Available? && GetSubmitResult !in faults &&
    var name := SubmitName(d, req, plan, req.signed.value);
    name in w.results && Vouches(d, req, plan, req.signed.value, w.results[name])
  }

  /** A Job was created at `name`, and not before its immutable input stood there with exactly this content. */
  predicate Starts(before: World, after: World, name: string, input: JobInput, script: Script) {
    after.results == before.results &&
    (after.inputs == before.inputs || (name !in before.inputs && after.inputs == before.inputs[name := input])) &&
    (after.jobs == before.jobs ||
     (name !in before.jobs && name in after.inputs && after.inputs[name] == input &&
      after.jobs == before.jobs[name := JobRecord(script, Running)]))
  }

  /** All that one reconcile may do to the cluster. */
  ghost predicate Advances(lib: Library, d: Digests, req: Request, before: World, after: World) {
    after == before ||
    (Reviewed(lib, req).Some? &&
     (StartsStaging(d, req, Reviewed(lib, req).value, before, after) ||
      StartsSubmission(lib, d, req, Reviewed(lib, req).value, before, after)))
  }

  ghost predicate StartsStaging(d: Digests, req: Request, plan: Plan, before: World, after: World) {
    var name := StageName(d, req, plan);
    name !in before.results &&
    Starts(before, after, name, StagingInput(req.channel, plan, Expected(d, req, plan)), Staging)
  }

  /** Only after matching staging evidence, with a signed envelope and all nodes placed. */
  ghost predicate StartsSubmission(lib: Library, d: Digests, req: Request, plan: Plan, before: World, after: World) {
    req.signed.Available? && ReadyToSubmit(d, req, plan, before) &&
    SubmitName(d, req, plan, req.signed.value) !in before.results &&
    exists input: Input ::
      ForSubmission(lib, d, req, plan, before.results[StageName(d, req, plan)].envelope.value, req.signed.value, input) &&
      Starts(before, after, SubmitName(d, req, plan, req.signed.value), SubmissionInput(input), Submission)
  }

  ghost predicate ForSubmission(lib: Library, d: Digests, req: Request, plan: Plan, staged: Envelope, signed: Envelope, input: Input) {
    input.channel == req.channel && input.plan == plan && input.staged == staged && input.signed == signed &&
    input.request == ExpectedSigned(d, req, plan, signed) &&
    ListOf(lib, plan.original).Some? && ListOf(lib, plan.updated).Some? &&
    Placed(req.cluster, req.adminOrg, ListOf(lib, plan.original).value, ListOf(lib, plan.updated).value, input.nodes)
  }

  /** Every consenter of the plan is managed and the config-fetch source stays one: what raftSubmissionNodes asks for. */
  predicate Placeable(lib: Library, req: Request, plan: Plan) {
    ListOf(lib, plan.original).Some? && ListOf(lib, plan.updated).Some? &&
    var current, desired := ListOf(lib, plan.original).value, ListOf(lib, plan.updated).value;
    AllManaged(req.cluster, req.adminOrg, current) && AllManaged(req.cluster, req.adminOrg, desired) &&
    req.source in Names(req.cluster, req.adminOrg, current) && req.source in Names(req.cluster, req.adminOrg, desired)
  }

  /** The input of the submission Job. */
  function SubmissionOf(lib: Library, d: Digests, req: Request, plan: Plan, staged: Envelope, signed: Envelope): Input
    requires Placeable(lib, req, plan)
  {
    var nodes := NodesOf(req.cluster, req.adminOrg, ListOf(lib, plan.original).value, ListOf(lib, plan.updated).value);
    Input(req.channel, plan, staged, signed, nodes, ExpectedSigned(d, req, plan, signed))
  }

  /** Nothing else stands under the name of the immutable input. */
  predicate Free(w: World, name: string, input: JobInput) {
    name in w.inputs ==> w.inputs[name] == input
  }

  /** Input and Job stand under the name. */
  predicate Launched(w: World, name: string, input: JobInput) {
    name in w.jobs && name in w.inputs && w.inputs[name] == input
  }

  // --------------------------------------------------------------------- what is reported

  /** Before there is a plan: what is wrong with the request, or that the plan is awaited. */
  ghost predicate ReportsRequest(lib: Library, req: Request, status: Status, failed: bool) {
    (!req.wellFormed ==> !failed && status.phase == FailedPhase) &&
    (req.wellFormed && !req.plan.Available? ==> status.phase == PendingPhase && (failed <==> req.plan.Unreachable?)) &&
    (req.wellFormed && req.plan.Available? && Reviewed(lib, req).None? ==> !failed && status.phase == FailedPhase)
  }

  /** The status shows the operation it is about and the Job of its stage. */
  ghost predicate ShowsOperation(d: Digests, req: Request, plan: Plan, status: Status) {
    status.planHash == d.plan(req.id, req.adminOrg, req.orderer, plan) && status.sequence == plan.sequence &&
    status.action == plan.action && status.name in {StageName(d, req, plan), SubmitNameOf(d, req, plan)}
  }

  ghost function SubmitNameOf(d: Digests, req: Request, plan: Plan): string {
    if req.signed.Available? then SubmitName(d, req, plan, req.signed.value) else StageName(d, req, plan)
  }

  ghost predicate SameOperation(s: Status, t: Status) {
    s.planHash == t.planHash && s.sequence == t.sequence && s.action == t.action
  }

  /** With a reviewed plan and no failing call, up to the staging evidence: the staging Job stands, or its evidence is judged. */
  ghost predicate ReportsStaging(d: Digests, req: Request, plan: Plan, before: World, after: World, status: Status, failed: bool) {
    var name, input := StageName(d, req, plan), StagingInput(req.channel, plan, Expected(d, req, plan));
    if name !in before.results then
      (Free(before, name, input) ==>
        !failed && Launched(after, name, input) && status.name == name &&
        status.phase == (if after.jobs[name].state == Running then PendingPhase else FailedPhase)) &&
      (!Free(before, name, input) ==> failed && after == before)
    else
      !failed || ReadyToSubmit(d, req, plan, before)
  }

  /** Evidence of something else is a failure; without a signed reference the envelope waits for signatures. */
  ghost predicate ReportsEvidence(d: Digests, req: Request, plan: Plan, before: World, status: Status, failed: bool) {
    var name := StageName(d, req, plan);
    name in before.results ==>
      (!Staged(d, req, plan, before.results[name], "staged") && !Staged(d, req, plan, before.results[name], "alreadyApplied") ==>
        !failed && status.phase == FailedPhase) &&
      (Staged(d, req, plan, before.results[name], "alreadyApplied") ==> !failed && status.ready && status.phase == AppliedPhase) &&
      (Staged(d, req, plan, before.results[name], "staged") && !req.wantsSubmission ==>
        !failed && status.phase == AwaitingSignatures && status.name == name)
  }

  /** With matching staging evidence, a signed reference and no failing call. */
  ghost predicate ReportsSubmission(
    lib: Library, d: Digests, req: Request, plan: Plan, staged: Envelope, before: World, after: World, status: Status, failed: bool)
  {
    if !req.signed.Available? then status.phase == AwaitingSignatures && (failed <==> req.signed.Unreachable?) && after == before
    else
      var name := SubmitName(d, req, plan, req.signed.value);
      status.name == name &&
      if name in before.results then
        !failed && after == before &&
        (!Vouches(d, req, plan, req.signed.value, before.results[name]) ==> status.phase == FailedPhase)
      else StartsOrExplains(lib, d, req, plan, staged, before, after, status, failed)
  }

  /** The Job stands with its input, or the reason why it cannot is reported. */
  ghost predicate StartsOrExplains(
    lib: Library, d: Digests, req: Request, plan: Plan, staged: Envelope, before: World, after: World, status: Status, failed: bool)
    requires req.signed.Available?
  {
    var name := SubmitName(d, req, plan, req.signed.value);
    if Placeable(lib, req, plan) then
      var input := SubmissionInput(SubmissionOf(lib, d, req, plan, staged, req.signed.value));
      (Free(before, name, input) ==>
        !failed && Launched(after, name, input) && ForSubmission(lib, d, req, plan, staged, req.signed.value, input.input) &&
        status.phase == (if after.jobs[name].state == Running then AwaitingSignatures else FailedPhase)) &&
      (!Free(before, name, input) ==> failed && after == before)
    else
      after == before &&
      (ListOf(lib, plan.original).Some? && ListOf(lib, plan.updated).Some? ==> !failed && status.phase == FailedPhase)
  }

  /** All that a reconcile in which no call fails reports and leaves behind. */
  ghost predicate Reports(
    lib: Library, d: Digests, req: Request, plan: Plan, before: World, after: World, status: Status, failed: bool)
  {
    ReportsStaging(d, req, plan, before, after, status, failed) && ReportsEvidence(d, req, plan, before, status, failed) &&
    (ReadyToSubmit(d, req, plan, before) ==>
      ReportsSubmission(lib, d, req, plan, before.results[StageName(d, req, plan)].envelope.value, before, after, status, failed))
  }

  /** The consenters of a config, without the planner's other checks. */
  function ListOf(lib: Library, config: Json): Option<seq<Consenter>> {
    var raw := Lookup(config, ConsentersPath);
    if raw.Ok? && raw.value.Array? && Decodable(lib, raw.value.items) then Some(Decoded(lib, raw.value.items)) else None
  }

  method RaftConsentersFromConfig(lib: Library, config: Json) returns (r: Option<seq<Consenter>>)
    ensures r == ListOf(lib, config)
  {
    var raw := RaftJsonValue(config, ConsentersPath);
    if raw.Err? || !raw.value.Array? || !Decodable(lib, raw.value.items) {
      return None;
    }
    return Some(Decoded(lib, raw.value.items));
  }

  /** The checks on a staging receipt; the empty outcome stands for evidence of something else. */
  method StagingOutcome(d: Digests, req: Request, plan: Plan, p: Published) returns (outcome: string)
    ensures outcome in {"", "staged", "alreadyApplied"}
    ensures outcome == "staged" <==> Staged(d, req, plan, p, "staged")
    ensures outcome == "alreadyApplied" <==> Staged(d, req, plan, p, "alreadyApplied")
  {
    if p.receipt.None? {
      return "";
    }
    outcome := p.receipt.value.outcome;
    if p.receipt.value.(outcome := "") != Expected(d, req, plan) || p.block.None? ||
       (outcome == "staged" && (p.envelope.None? || plan.action == "AlreadyApplied")) ||
       (outcome == "alreadyApplied" && plan.action != "AlreadyApplied") ||
       (outcome != "staged" && outcome != "alreadyApplied")
    {
      return "";
    }
  }

  // ---------------------------------------------------------------------------- the reconciler

  /** The ConfigMaps and Jobs of Raft operations in the admin organization's namespace. */
  class RaftObjects {
    var results: map<string, Published>
    var inputs: map<string, JobInput>
    var jobs: map<string, JobRecord>

    ghost function Snapshot(): World
      reads this
    {
      World(results, inputs, jobs)
    }

    /** ensureConfigMap with an immutable ConfigMap: equal content is left alone, other content is an error. */
    method EnsureInput(name: string, input: JobInput, faults: set<Call>) returns (ok: bool)
      modifies this`inputs
      ensures ok ==> name in inputs && inputs[name] == input
      ensures inputs == old(inputs) || (name !in old(inputs) && inputs == old(inputs)[name := input])
      ensures ok <==> WriteInput !in faults && Free(old(Snapshot()), name, input)
      ensures !ok ==> inputs == old(inputs)
    {
      if WriteInput in faults {
        return false;
      }
      if name in inputs {
        return inputs[name] == input;
      }
      inputs := inputs[name := input];
      return true;
    }

    /** ensureJob: an existing Job keeps its script and its progress. */
    method EnsureJob(name: string, script: Script, faults: set<Call>) returns (ok: bool)
      modifies this`jobs
      ensures ok ==> name in jobs
      ensures jobs == old(jobs) || (ok && name !in old(jobs) && jobs == old(jobs)[name := JobRecord(script, Running)])
      ensures ok <==> WriteJob !in faults
    {
      if WriteJob in faults {
        return false;
      }
      if name !in jobs {
        jobs := jobs[name := JobRecord(script, Running)];
      }
      return true;
    }

    /** RBAC, then the input, then the Job, then a look at the Job. */
    method Launch(name: string, input: JobInput, script: Script, faults: set<Call>) returns (ok: bool, ended: bool)
      modifies this`inputs, this`jobs
      ensures Starts(old(Snapshot()), Snapshot(), name, input, script)
      ensures ok ==> Launched(Snapshot(), name, input) && (ended <==> jobs[name].state != Running)
      ensures faults == {} ==> (ok <==> Free(old(Snapshot()), name, input))
      ensures !Free(old(Snapshot()), name, input) ==> Snapshot() == old(Snapshot())
    {
      ok, ended := WriteRbac !in faults, false;
      if ok {
        ok := EnsureInput(name, input, faults);
      }
      if ok {
        ok := EnsureJob(name, script, faults);
      }
      if ok {
        ok, ended := GetJob !in faults, jobs[name].state != Running;
      }
    }

    /** reconcileRaftSubmission: entered with matching staging evidence at hand. */
    method ReconcileRaftSubmission(
      lib: Library, d: Digests, req: Request, plan: Plan, staged: Envelope, initial: Status, faults: set<Call>)
      returns (status: Status, failed: bool)
      requires ReadyToSubmit(d, req, plan, Snapshot())
      requires results[StageName(d, req, plan)].envelope == Some(staged)
      requires initial.phase == AwaitingSignatures && !initial.ready && initial.message != ""
      modifies this`inputs, this`jobs
      ensures old(Snapshot()) == Snapshot() || StartsSubmission(lib, d, req, plan, old(Snapshot()), Snapshot())
      ensures status.ready <==> SubmissionShown(d, req, plan, old(Snapshot()), faults)
      ensures status.ready ==> status.phase in {SubmittedPhase, AppliedPhase} &&
                               status.name == SubmitName(d, req, plan, req.signed.value)
      ensures status.ready ==>
        (status.phase == AppliedPhase <==> results[status.name].receipt.value.outcome == "alreadyApplied")
      ensures !failed ==> (status.ready <==> status.message == "")
      ensures status.ready ==> !failed
      ensures faults == {} ==> ReportsSubmission(lib, d, req, plan, staged, old(Snapshot()), Snapshot(), status, failed)
      ensures SameOperation(initial, status) && status.name in {initial.name, SubmitNameOf(d, req, plan)}
    {
      status, failed := initial, false;
      if !req.signed.Available? {
        status := status.(message := "Waiting for signed Raft envelope");
        return status, req.signed.Unreachable?;
      }
      var signed := req.signed.value;
      var expected := ExpectedSigned(d, req, plan, signed);
      var name := SubmitName(d, req, plan, signed);
      status := status.(name := name);
      if GetSubmitResult in faults {
        return status, true;
      }
      if name in results {
        var p := results[name];
        if p.receipt.None? || p.receipt.value.(outcome := "") != expected || p.block.None? ||
           p.envelope != Some(signed) || p.receipt.value.outcome !in {"submitted", "alreadyApplied"}
        {
          status := status.(phase := FailedPhase, message := "Signed Raft evidence does not match the operation");
        } else {
          status := status.(phase := SubmittedPhase, ready := true, message := "");
          if p.receipt.value.outcome == "alreadyApplied" {
            status := status.(phase := AppliedPhase);
          }
        }
        return status, false;
      }
      status, failed := StartSubmission(lib, d, req, plan, staged, signed, status, faults);
    }

    method StartSubmission(
      lib: Library, d: Digests, req: Request, plan: Plan, staged: Envelope, signed: Envelope, initial: Status, faults: set<Call>)
      returns (status: Status, failed: bool)
      requires req.signed == Available(signed) && ReadyToSubmit(d, req, plan, Snapshot())
      requires results[StageName(d, req, plan)].envelope == Some(staged)
      requires SubmitName(d, req, plan, signed) !in results && initial.phase == AwaitingSignatures &&
               !initial.ready && initial.message != ""
      modifies this`inputs, this`jobs
      ensures old(Snapshot()) == Snapshot() || StartsSubmission(lib, d, req, plan, old(Snapshot()), Snapshot())
      ensures !status.ready && status.message != ""
      ensures faults == {} ==> StartsOrExplains(lib, d, req, plan, staged, old(Snapshot()), Snapshot(), status, failed)
      ensures SameOperation(initial, status) && status.name == initial.name
    {
      status, failed := initial, false;
      var current := RaftConsentersFromConfig(lib, plan.original);
      if current.None? {
        return status, true;
      }
      var desired := RaftConsentersFromConfig(lib, plan.updated);
      if desired.None? {
        return status, true;
      }
      var nodes := RaftSubmissionNodes(req.cluster, req.adminOrg, req.source, current.value, desired.value);
      if nodes.Err? {
        status := status.(phase := FailedPhase, message := "Raft submission blocked");
        return status, false;
      }
      var input := Input(req.channel, plan, staged, signed, nodes.value, ExpectedSigned(d, req, plan, signed));
      assert input == SubmissionOf(lib, d, req, plan, staged, signed);
      status, failed := LaunchSubmission(lib, d, req, plan, staged, signed, input, status, faults);
    }

    /** The last part: the objects of the submission, and a look at its Job. */
    method LaunchSubmission(
      lib: Library, d: Digests, req: Request, plan: Plan, staged: Envelope, signed: Envelope, input: Input, initial: Status,
      faults: set<Call>)
      returns (status: Status, failed: bool)
      requires req.signed == Available(signed) && ReadyToSubmit(d, req, plan, Snapshot())
      requires results[StageName(d, req, plan)].envelope == Some(staged)
      requires Placeable(lib, req, plan) && input == SubmissionOf(lib, d, req, plan, staged, signed)
      requires ForSubmission(lib, d, req, plan, staged, signed, input)
      requires SubmitName(d, req, plan, signed) !in results && initial.phase == AwaitingSignatures &&
               !initial.ready && initial.message != ""
      modifies this`inputs, this`jobs
      ensures StartsSubmission(lib, d, req, plan, old(Snapshot()), Snapshot())
      ensures !status.ready && status.message != ""
      ensures faults == {} ==> StartsOrExplains(lib, d, req, plan, staged, old(Snapshot()), Snapshot(), status, failed)
      ensures SameOperation(initial, status) && status.name == initial.name
    {
      status, failed := initial, false;
      var ok, ended := Launch(SubmitName(d, req, plan, signed), SubmissionInput(input), Submission, faults);
      if !ok {
        return status, true;
      }
      status := status.(message := "Waiting for Raft submission health/catch-up checks and committed membership");
      if ended {
        status := status.(phase := FailedPhase, message := "Raft submission Job failed or completed without durable evidence");
      }
    }

    /**
     reconcileRaftUpdate. It reports Ready exactly on matching evidence, starts a Job only
     where Advances allows it, never touches a result, and says why whenever it is not done.
     */
    method ReconcileRaftUpdate(lib: Library, d: Digests, req: Request, faults: set<Call>)
      returns (status: Status, failed: bool)
      modifies this`inputs, this`jobs
      ensures results == old(results)
      ensures Advances(lib, d, req, old(Snapshot()), Snapshot())
      ensures status.ready <==> ReadyBy(lib, d, req, old(Snapshot()), faults)
      ensures status.ready ==> status.phase in {SubmittedPhase, AppliedPhase}
      ensures status.ready ==> Snapshot() == old(Snapshot())
      ensures !failed ==> (status.ready <==> status.message == "")
      ensures status.ready ==> !failed
      ensures ReportsRequest(lib, req, status, failed)
      ensures Reviewed(lib, req).Some? ==> ShowsOperation(d, req, Reviewed(lib, req).value, status)
      ensures Reviewed(lib, req).Some? && faults == {} ==>
                Reports(lib, d, req, Reviewed(lib, req).value, old(Snapshot()), Snapshot(), status, failed)
      ensures !failed && Reviewed(lib, req).Some? && StageName(d, req, Reviewed(lib, req).value) !in results ==>
                StageName(d, req, Reviewed(lib, req).value) in jobs
    {
      status, failed := Status(PendingPhase, false, "", "", "", "", ""), false;
      if !req.wellFormed {
        status := status.(phase := FailedPhase, message := "invalid raftUpdate");
        return;
      }
      if !req.plan.Available? {
        status := status.(message := "Waiting for Raft plan");
        return status, req.plan.Unreachable?;
      }
      var validated := ValidateRaftPlan(lib, req.plan.value, req.channel);
      if validated.Err? {
        status := status.(phase := FailedPhase, message := "Invalid Raft plan");
        return;
      }
      var plan := validated.value;
      var name := StageName(d, req, plan);
      status := status.(planHash := PlanHash(d, req, plan), sequence := plan.sequence, action := plan.action, name := name);
      if GetStageResult in faults {
        return status, true;
      }
      if name in results {
        status, failed := JudgeStaging(lib, d, req, plan, results[name], status, faults);
        return;
      }
      status, failed := StartStaging(d, req, plan, status, faults);
    }

    method StartStaging(d: Digests, req: Request, plan: Plan, initial: Status, faults: set<Call>)
      returns (status: Status, failed: bool)
      requires StageName(d, req, plan) !in results && !initial.ready
      requires initial.phase == PendingPhase && initial.name == StageName(d, req, plan)
      modifies this`inputs, this`jobs
      ensures StartsStaging(d, req, plan, old(Snapshot()), Snapshot())
      ensures !status.ready && (!failed ==> status.message != "" && StageName(d, req, plan) in jobs)
      ensures faults == {} ==> ReportsStaging(d, req, plan, old(Snapshot()), Snapshot(), status, failed)
      ensures SameOperation(initial, status) && status.name == initial.name
    {
      var expected, name := Expected(d, req, plan), StageName(d, req, plan);
      status, failed := initial, false;
      var ok, ended := Launch(name, StagingInput(req.channel, plan, expected), Staging, faults);
      if !ok {
        return status, true;
      }
      status := status.(message := "Waiting for Raft staging Job");
      if ended {
        status := status.(phase := FailedPhase, message := "Raft staging Job failed or completed without durable evidence");
      }
    }

    /** The branch of reconcileRaftUpdate that has found a staging result. */
    method JudgeStaging(lib: Library, d: Digests, req: Request, plan: Plan, p: Published, initial: Status, faults: set<Call>)
      returns (status: Status, failed: bool)
      requires !initial.ready && initial.message == "" && initial.name == StageName(d, req, plan)
      requires StageName(d, req, plan) in results && results[StageName(d, req, plan)] == p
      modifies this`inputs, this`jobs
      ensures Snapshot() == old(Snapshot()) || StartsSubmission(lib, d, req, plan, old(Snapshot()), Snapshot())
      ensures status.ready <==> ReadyWith(d, req, plan, old(Snapshot()), faults)
      ensures status.ready ==> status.phase in {SubmittedPhase, AppliedPhase} && Snapshot() == old(Snapshot())
      ensures !failed ==> (status.ready <==> status.message == "")
      ensures status.ready ==> !failed
      ensures faults == {} ==> Reports(lib, d, req, plan, old(Snapshot()), Snapshot(), status, failed)
      ensures SameOperation(initial, status) && status.name in {initial.name, SubmitNameOf(d, req, plan)}
    {
      status, failed := initial, false;
      var outcome := StagingOutcome(d, req, plan, p);
      if outcome == "" {
        status := status.(phase := FailedPhase, message := "Raft staging evidence does not match the reviewed operation");
      } else if outcome == "alreadyApplied" {
        status := status.(phase := AppliedPhase, ready := true);
      } else {
        status := status.(phase := AwaitingSignatures, message := "Waiting for orderer-admin signatures");
        if req.wantsSubmission {
          status, failed := ReconcileRaftSubmission(lib, d, req, plan, p.envelope.value, status, faults);
        }
      }
    }
  }
}
