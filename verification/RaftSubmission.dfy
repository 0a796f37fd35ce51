/**
 The submission Job of internal/controller/fabricnetwork_raft_submission.go
 (raftSubmissionScript) as a state machine: each command that reads or changes something
 outside the Job is one step, and between any two steps other clients may commit configs,
 blocks may be added and node states may change in any way.

 `trace` records what the script saw and did, in order. It is the history about which the
 safety properties speak; the script itself never reads it back except for the block it
 fetched last.
 */
module RaftSubmission {
  import opened Wrappers
  import opened Runs
  import opened Json
  import opened Decimal
  import opened Consenters
  import opened RaftPlan
  import opened FabricLedger
  import opened SubmissionNodes

  datatype Envelope = Envelope(headerType: nat, channel: string, update: ConfigUpdate, signatures: nat)

  datatype Receipt = Receipt(
    channel: string, operationID: string, planHash: string, sequence: string, action: string,
    outcome: string, signedHash: string)

  /** The immutable input ConfigMap of the Job. */
  datatype Input = Input(
    channel: string, plan: Plan, staged: Envelope, signed: Envelope, nodes: seq<Node>, request: Receipt)

  datatype Relation = Voter | Follower | OtherRelation

  /** What /healthz and `osnadmin channel list` report for one orderer. */
  datatype NodeState = NodeState(healthy: bool, active: bool, relation: Relation, height: nat)

  datatype Event =
    | Fetched(block: Block)
    | TipRead(reference: nat)
    | Passed(before: bool, node: Node, state: NodeState, reference: nat)
    | Submitted(update: ConfigUpdate)

  datatype Evidence = Evidence(receipt: Receipt, block: Block, envelope: Envelope)

  /** The attempt that published: where it began in the trace, and where it saw the published block. */
  datatype Attempt = Attempt(began: nat, seen: nat)

  /** Program points of the current attempt; positions refer to the trace. */
  datatype Point =
    | Start
    | Verified
    | Looked(first: nat)
    | Fresh(first: nat)
    | Preflight(first: nat, reference: nat, checked: nat)
    | Cleared(first: nat, second: nat)
    | Awaiting(outcome: string)
    | Confirmed(outcome: string, seen: nat, reference: nat, checked: nat)
    | Published
    | Failed

  datatype State = State(
    ledger: seq<Block>, height: nat, nodes: map<string, NodeState>, inbox: set<ConfigUpdate>,
    at: Point, began: nat, trace: seq<Event>, evidence: Option<Evidence>, shown: Attempt)

  // ----------------------------------------------------------------------- the script's tests

  /** Staged and signed envelopes carry the update that the validated plan's configs give. */
  predicate EnvelopesMatch(job: Input) {
    job.signed.headerType == 2 && job.signed.channel == job.channel &&
    job.signed.update.channel == job.channel && job.signed.signatures > 0 &&
    job.staged.update == job.signed.update &&
    ComputeUpdate(job.channel, job.plan.original, job.plan.updated) == Some(job.staged.update)
  }

  /** membership_matches: the planned list is live, in normal Raft, at a greater sequence. */
  predicate MembershipMatches(job: Input, config: Json) {
    Lookup(config, ConsensusPath).Ok? && NormalRaft(Lookup(config, ConsensusPath).value) &&
    Lookup(config, ConsentersPath).Ok? &&
    Lookup(config, ConsentersPath) == Lookup(job.plan.updated, ConsentersPath) &&
    Text(config, SequencePath).Some? && ScriptGreater(Text(config, SequencePath).value, job.plan.sequence)
  }

  /** One round of check_nodes. */
  predicate Passes(before: bool, node: Node, state: NodeState, reference: nat) {
    state.healthy && state.active && state.height >= reference &&
    state.relation == (if before && !node.current then Follower else Voter)
  }

  // ------------------------------------------------------------------------------- the steps

  ghost predicate VerifyStep(job: Input, s: State, t: State) {
    s.at == Start && t == s.(at := if EnvelopesMatch(job) then Verified else Failed)
  }

  /** fetch_config answers with some committed config block: the source orderer may lag behind. */
  ghost predicate FirstFetchStep(job: Input, s: State, t: State) {
    s.at == Verified &&
    exists b <- s.ledger :: t == s.(at := Looked(|s.trace|), trace := s.trace + [Fetched(b)])
  }

  ghost predicate CompareStep(job: Input, s: State, t: State) {
    s.at.Looked? && s.at.first < |s.trace| && s.trace[s.at.first].Fetched? &&
    var config := s.trace[s.at.first].block.config;
    t == s.(at := if MembershipMatches(job, config) then Awaiting("alreadyApplied")
                  else if config == job.plan.original then Fresh(s.at.first) else Failed)
  }

  ghost predicate TipStep(job: Input, s: State, t: State) {
    s.at.Fresh? &&
    exists reference: nat :: reference <= s.height &&
      t == s.(at := Preflight(s.at.first, reference, 0), trace := s.trace + [TipRead(reference)])
  }

  ghost predicate CheckBeforeStep(job: Input, s: State, t: State) {
    s.at.Preflight? && s.at.checked < |job.nodes| &&
    var node := job.nodes[s.at.checked];
    if node.name in s.nodes && Passes(true, node, s.nodes[node.name], s.at.reference)
    then t == s.(at := Preflight(s.at.first, s.at.reference, s.at.checked + 1),
                 trace := s.trace + [Passed(true, node, s.nodes[node.name], s.at.reference)])
    else t == s.(at := Failed)
  }

  ghost predicate SecondFetchStep(job: Input, s: State, t: State) {
    s.at.Preflight? && s.at.checked == |job.nodes| &&
    exists b <- s.ledger ::
      t == s.(at := if b.config == job.plan.original then Cleared(s.at.first, |s.trace|) else Failed,
              trace := s.trace + [Fetched(b)])
  }

  /** `peer channel update`: the ordering service has the update even if the command then fails. */
  ghost predicate SubmitStep(job: Input, s: State, t: State) {
    s.at.Cleared? && (t.at == Awaiting("submitted") || t.at == Failed) &&
    t == s.(at := t.at, inbox := s.inbox + {job.signed.update}, trace := s.trace + [Submitted(job.signed.update)])
  }

  ghost predicate PollStep(job: Input, s: State, t: State) {
    s.at.Awaiting? &&
    exists b <- s.ledger ::
      t == s.(at := if MembershipMatches(job, b.config) then Confirmed(s.at.outcome, |s.trace|, b.number + 1, 0) else s.at,
              trace := s.trace + [Fetched(b)])
  }

  /** Nodes that leave are skipped; a failed check starts the whole round again. */
  ghost predicate CheckAfterStep(job: Input, s: State, t: State) {
    s.at.Confirmed? && s.at.checked < |job.nodes| &&
    var node := job.nodes[s.at.checked];
    if !node.desired then t == s.(at := Confirmed(s.at.outcome, s.at.seen, s.at.reference, s.at.checked + 1))
    else if node.name in s.nodes && Passes(false, node, s.nodes[node.name], s.at.reference)
    then t == s.(at := Confirmed(s.at.outcome, s.at.seen, s.at.reference, s.at.checked + 1),
                 trace := s.trace + [Passed(false, node, s.nodes[node.name], s.at.reference)])
    else t == s.(at := Confirmed(s.at.outcome, s.at.seen, s.at.reference, 0))
  }

  ghost predicate PublishStep(job: Input, s: State, t: State) {
    s.at.Confirmed? && s.at.checked == |job.nodes| && s.at.seen < |s.trace| && s.trace[s.at.seen].Fetched? &&
    t == s.(at := Published,
            evidence := Some(Evidence(job.request.(outcome := s.at.outcome), s.trace[s.at.seen].block, job.signed)),
            shown := Attempt(s.began, s.at.seen))
  }

  /** Any command may fail, retries run out, the Pod may die. */
  ghost predicate GiveUpStep(job: Input, s: State, t: State) {
    t == s.(at := Failed)
  }

  /** A Job that ended may be deleted and created again: the script starts over, the ordering service remembers. */
  ghost predicate RestartStep(job: Input, s: State, t: State) {
    s.at in {Published, Failed} && t == s.(at := Start, began := |s.trace|)
  }

  ghost predicate ScriptStep(job: Input, s: State, t: State) {
    VerifyStep(job, s, t) || FirstFetchStep(job, s, t) || CompareStep(job, s, t) || TipStep(job, s, t) ||
    CheckBeforeStep(job, s, t) || SecondFetchStep(job, s, t) || SubmitStep(job, s, t) || PollStep(job, s, t) ||
    CheckAfterStep(job, s, t) || PublishStep(job, s, t) || GiveUpStep(job, s, t) || RestartStep(job, s, t)
  }

  /** The environment: other config commits, more blocks, and nodes that change as they like. */
  ghost predicate EnvironmentStep(s: State, t: State) {
    ForeignCommit(s, t) ||
    (exists nodes, height: nat :: height >= s.height && t == s.(nodes := nodes, height := height))
  }

  ghost predicate ForeignCommit(s: State, t: State) {
    exists b: Block :: s.ledger != [] && b.number >= s.height && Commits(s.ledger[|s.ledger| - 1].config, b.config) &&
      t == s.(ledger := s.ledger + [b], height := b.number + 1)
  }

  /** The ordering service commits an update that was submitted, if its version check passes. */
  ghost predicate OrderingCommit(s: State, t: State, update: ConfigUpdate) {
    update in s.inbox && s.ledger != [] &&
    var tip := s.ledger[|s.ledger| - 1].config;
    Accepts(tip, update) &&
    exists number: nat :: number >= s.height &&
      t == s.(ledger := s.ledger + [Block(number, Apply(tip, update))], height := number + 1)
  }

  ghost predicate Step(job: Input, s: State, t: State) {
    ScriptStep(job, s, t) || EnvironmentStep(s, t) || exists update :: OrderingCommit(s, t, update)
  }

  ghost predicate Init(s: State) {
    History(s.ledger) && s.ledger[|s.ledger| - 1].number < s.height &&
    s.inbox == {} && s.at == Start && s.began == 0 && s.trace == [] && s.evidence == None
  }

  ghost predicate Run(job: Input, states: seq<State>) {
    IsRun(states, s => Init(s), (s, t) => Step(job, s, t))
  }
}
