/**
 Ready is evidence-sound: over every sequence of reconciles, Job executions and deletions, a
 Raft update is reported Ready only if the channel really carried the planned consenters.
 */
module RaftReady {
  import opened Wrappers
  import opened Runs
  import opened Json
  import opened Decimal
  import opened Consenters
  import opened RaftPlan
  import opened RaftPlanLaws
  import opened FabricLedger
  import opened SubmissionNodes
  import opened RaftSubmission
  import opened RaftSubmissionInvariant
  import RaftSubmissionRuns
  import opened RaftReconcile

  // ------------------------------------------------------------------------------ the cluster

  function AsPublished(e: Evidence): Published {
    RaftReconcile.Published.Published(Some(e.receipt), Some(e.block), Some(e.envelope))
  }

  /** The config blocks of every channel, from its beginning to the end of what is considered: one history for all Jobs. */
  type Chains = string -> seq<Block>

  /** Some run of the submission script on this input, on the channel's own history, publishes `p`. */
  ghost predicate SubmissionPublishes(chains: Chains, input: Input, p: Published) {
    exists states, j: nat :: RunPublishes(chains, input, states, j, p)
  }

  ghost predicate RunPublishes(chains: Chains, input: Input, states: seq<State>, j: nat, p: Published) {
    Run(input, states) && j < |states| && states[j].ledger <= chains(input.channel) &&
    states[j].evidence.Some? && p == AsPublished(states[j].evidence.value)
  }

  /** The staging script publishes only after the live config equalled the reviewed original. */
  ghost predicate StagingPublishes(chains: Chains, channel: string, plan: Plan, request: Receipt, p: Published) {
    p.block.Some? && p.block.value in chains(channel) && p.block.value.config == plan.original &&
    if plan.action == "AlreadyApplied"
    then p.receipt == Some(request.(outcome := "alreadyApplied")) && p.envelope == None
    else p.receipt == Some(request.(outcome := "staged"))
  }

  /** What a Job publishes depends on its script and on the input mounted under its name. */
  ghost predicate Produces(chains: Chains, script: Script, input: JobInput, p: Published) {
    match (script, input)
    case (Staging, StagingInput(channel, plan, request)) => StagingPublishes(chains, channel, plan, request, p)
    case (Staging, SubmissionInput(i)) => StagingPublishes(chains, i.channel, i.plan, i.request, p)
    case (Submission, SubmissionInput(i)) => SubmissionPublishes(chains, i, p)
    case (Submission, StagingInput(_, _, _)) => false
  }

  ghost predicate ReconcileStep(lib: Library, d: Digests, w: World, w': World) {
    exists req :: Advances(lib, d, req, w, w')
  }

  ghost predicate JobStep(chains: Chains, w: World, w': World) {
    exists name, p :: name in w.jobs && name in w.inputs && Produces(chains, w.jobs[name].script, w.inputs[name], p) &&
      w' == w.(results := w.results[name := p])
  }

  /** Jobs make progress, end and are cleaned up; results may be deleted, but nobody else writes them. */
  ghost predicate OtherStep(w: World, w': World) {
    (exists jobs: map<string, JobRecord> :: w' == w.(jobs := jobs) &&
      forall n <- jobs :: n in w.jobs && jobs[n].script == w.jobs[n].script) ||
    (exists name :: w' == w.(results := w.results - {name}))
  }

  ghost predicate WorldStep(lib: Library, d: Digests, chains: Chains, w: World, w': World) {
    ReconcileStep(lib, d, w, w') || JobStep(chains, w, w') || OtherStep(w, w')
  }

  ghost predicate WorldRun(lib: Library, d: Digests, chains: Chains, worlds: seq<World>) {
    IsRun(worlds, w => w == World(map[], map[], map[]), (w, w') => WorldStep(lib, d, chains, w, w'))
  }

  // ----------------------------------------------------------------------------- the invariant

  /** The reconciler wrote this input for some reviewed operation. */
  ghost predicate InputOk(lib: Library, d: Digests, input: JobInput) {
    match input
    case StagingInput(channel, plan, request) =>
      exists req :: Reviewed(lib, req) == Some(plan) && request == Expected(d, req, plan) && channel == req.channel
    case SubmissionInput(i) =>
      exists req, staged :: Reviewed(lib, req) == Some(i.plan) && ForSubmission(lib, d, req, i.plan, staged, i.signed, i)
  }

  ghost predicate ResultOk(lib: Library, d: Digests, chains: Chains, p: Published) {
    exists script, input :: InputOk(lib, d, input) && Produces(chains, script, input, p)
  }

  ghost predicate WorldOk(lib: Library, d: Digests, chains: Chains, w: World) {
    (forall n <- w.inputs :: InputOk(lib, d, w.inputs[n])) && (forall n <- w.results :: ResultOk(lib, d, chains, w.results[n]))
  }

  lemma StartsKeepsOk(lib: Library, d: Digests, chains: Chains, w: World, w': World, name: string, input: JobInput, script: Script)
    requires WorldOk(lib, d, chains, w) && Starts(w, w', name, input, script) && InputOk(lib, d, input)
    ensures WorldOk(lib, d, chains, w')
  {
    forall n <- w'.inputs
      ensures InputOk(lib, d, w'.inputs[n])
    {
      assert n in w.inputs || n == name;
    }
  }

  lemma StagingInputOk(lib: Library, d: Digests, req: Request, plan: Plan)
    requires Reviewed(lib, req) == Some(plan)
    ensures InputOk(lib, d, StagingInput(req.channel, plan, Expected(d, req, plan)))
  {
  }

  lemma ReconcileKeepsOk(lib: Library, d: Digests, chains: Chains, req: Request, w: World, w': World)
    requires WorldOk(lib, d, chains, w) && Advances(lib, d, req, w, w')
    ensures WorldOk(lib, d, chains, w')
  {
    if w' != w {
      var plan := Reviewed(lib, req).value;
      if StartsStaging(d, req, plan, w, w') {
        StagingInputOk(lib, d, req, plan);
        StartsKeepsOk(lib, d, chains, w, w', StageName(d, req, plan), StagingInput(req.channel, plan, Expected(d, req, plan)), Staging);
      } else {
        SubmissionKeepsOk(lib, d, chains, req, plan, w, w');
      }
    }
  }

  lemma SubmissionKeepsOk(lib: Library, d: Digests, chains: Chains, req: Request, plan: Plan, w: World, w': World)
    requires Reviewed(lib, req) == Some(plan) && WorldOk(lib, d, chains, w) && StartsSubmission(lib, d, req, plan, w, w')
    ensures WorldOk(lib, d, chains, w')
  {
    var staged, signed := w.results[StageName(d, req, plan)].envelope.value, req.signed.value;
    var input: Input :| ForSubmission(lib, d, req, plan, staged, signed, input) &&
      Starts(w, w', SubmitName(d, req, plan, signed), SubmissionInput(input), Submission);
    SubmissionInputOk(lib, d, req, plan, staged, signed, input);
    StartsKeepsOk(lib, d, chains, w, w', SubmitName(d, req, plan, signed), SubmissionInput(input), Submission);
  }

  lemma SubmissionInputOk(lib: Library, d: Digests, req: Request, plan: Plan, staged: Envelope, signed: Envelope, input: Input)
    requires Reviewed(lib, req) == Some(plan) && ForSubmission(lib, d, req, plan, staged, signed, input)
    ensures InputOk(lib, d, SubmissionInput(input))
  {
  }

  lemma WorldStepKeepsOk(lib: Library, d: Digests, chains: Chains, w: World, w': World)
    requires WorldOk(lib, d, chains, w) && WorldStep(lib, d, chains, w, w')
    ensures WorldOk(lib, d, chains, w')
  {
    if ReconcileStep(lib, d, w, w') {
      var req :| Advances(lib, d, req, w, w');
      ReconcileKeepsOk(lib, d, chains, req, w, w');
    } else if JobStep(chains, w, w') {
      JobKeepsOk(lib, d, chains, w, w');
    } else {
      OtherKeepsOk(lib, d, chains, w, w');
    }
  }

  lemma JobKeepsOk(lib: Library, d: Digests, chains: Chains, w: World, w': World)
    requires WorldOk(lib, d, chains, w) && JobStep(chains, w, w')
    ensures WorldOk(lib, d, chains, w')
  {
    var name, p :| name in w.jobs && name in w.inputs && Produces(chains, w.jobs[name].script, w.inputs[name], p) &&
      w' == w.(results := w.results[name := p]);
    assert ResultOk(lib, d, chains, p);
  }

  lemma OtherKeepsOk(lib: Library, d: Digests, chains: Chains, w: World, w': World)
    requires WorldOk(lib, d, chains, w) && OtherStep(w, w')
    ensures WorldOk(lib, d, chains, w')
  {
  }

  lemma RunIsOk(lib: Library, d: Digests, chains: Chains, worlds: seq<World>, j: nat)
    requires WorldRun(lib, d, chains, worlds) && j < |worlds|
    ensures WorldOk(lib, d, chains, worlds[j])
  {
    forall w, w' | WorldOk(lib, d, chains, w) && WorldStep(lib, d, chains, w, w')
      ensures WorldOk(lib, d, chains, w')
    {
      WorldStepKeepsOk(lib, d, chains, w, w');
    }
    InvariantHolds(worlds, w => w == World(map[], map[], map[]), (w, w') => WorldStep(lib, d, chains, w, w'),
                   w => WorldOk(lib, d, chains, w), j);
  }

  // ------------------------------------------------------------------------- Ready is sound

  ghost predicate DigestsOk(d: Digests) {
    CollisionFree(d) && forall e :: d.signed(e) != ""
  }

  /** The block of the evidence carried the planned consenters in normal Raft. */
  ghost predicate ShowsPlan(plan: Plan, block: Block) {
    Lookup(block.config, ConsentersPath) == Lookup(plan.updated, ConsentersPath) &&
    Lookup(block.config, ConsensusPath).Ok? && NormalRaft(Lookup(block.config, ConsensusPath).value)
  }

  ghost predicate PassedSequence(plan: Plan, block: Block) {
    Digits(plan.sequence) && Live(block.config) && Sequence(block.config) > Value(plan.sequence)
  }

  /** The nodes are those of the plan's current and desired consenters in the admin organization. */
  ghost predicate PlacedFor(lib: Library, cl: Cluster, org: string, plan: Plan, nodes: seq<Node>) {
    ListOf(lib, plan.original).Some? && ListOf(lib, plan.updated).Some? &&
    Placed(cl, org, ListOf(lib, plan.original).value, ListOf(lib, plan.updated).value, nodes)
  }

  /**
   The submission script published `p` in this run, on an input that the reconciler wrote for
   exactly this operation, plan and signed envelope, with the nodes of the plan as the cluster
   then was; and after it had seen the published block, every desired node was an active
   consenter at its height.
   */
  ghost predicate PublishedIn(
    lib: Library, d: Digests, chains: Chains, req: Request, plan: Plan, signed: Envelope, p: Published,
    input: Input, cl: Cluster, states: seq<State>, j: nat)
  {
    input.channel == req.channel && input.plan == plan && input.signed == signed &&
    input.request == ExpectedSigned(d, req, plan, signed) && PlacedFor(lib, cl, req.adminOrg, plan, input.nodes) &&
    RunPublishes(chains, input, states, j, p) && p.block.Some? &&
    RaftSubmissionRuns.NodesCaughtUp(input, states[j].trace, states[j].shown.seen, p.block.value)
  }

  ghost predicate SubmittedFor(lib: Library, d: Digests, chains: Chains, req: Request, plan: Plan, signed: Envelope, p: Published) {
    exists input: Input, cl: Cluster, states: seq<State>, j: nat ::
      PublishedIn(lib, d, chains, req, plan, signed, p, input, cl, states, j)
  }

  /** The receipt names this channel, operation, plan, sequence and action. */
  ghost predicate ReceiptAgrees(d: Digests, req: Request, plan: Plan, r: Receipt) {
    r.channel == req.channel && r.operationID == req.id && r.planHash == d.plan(req.id, req.adminOrg, req.orderer, plan) &&
    r.sequence == plan.sequence && r.action == plan.action
  }

  /** Everything that Ready through a signed submission stands for. */
  ghost predicate SubmissionProven(lib: Library, d: Digests, chains: Chains, req: Request, plan: Plan, signed: Envelope, p: Published) {
    p.block.Some? && p.block.value in chains(req.channel) && ShowsPlan(plan, p.block.value) && PassedSequence(plan, p.block.value) &&
    p.receipt.Some? && p.receipt.value.(outcome := "") == ExpectedSigned(d, req, plan, signed) &&
    ReceiptAgrees(d, req, plan, p.receipt.value) && p.receipt.value.signedHash == d.signed(signed) &&
    p.receipt.value.outcome in {"submitted", "alreadyApplied"} && p.envelope == Some(signed) && SubmittedFor(lib, d, chains, req, plan, signed, p)
  }

  lemma StagingInputRequest(lib: Library, d: Digests, chains: Chains, input: JobInput, p: Published)
    returns (req: Request, plan: Plan, request: Receipt)
    requires InputOk(lib, d, input) && Produces(chains, Staging, input, p)
    ensures StagingPublishes(chains, req.channel, plan, request, p) && Reviewed(lib, req) == Some(plan)
    ensures request.planHash == PlanHash(d, req, plan) && request.channel == req.channel
  {
    match input
    case StagingInput(channel, plan', request') =>
      req :| Reviewed(lib, req) == Some(plan') && request' == Expected(d, req, plan') && channel == req.channel;
      plan, request := plan', request';
    case SubmissionInput(i) =>
      var staged: Envelope;
      req, staged :| Reviewed(lib, req) == Some(i.plan) && ForSubmission(lib, d, req, i.plan, staged, i.signed, i);
      plan, request := i.plan, i.request;
  }

  lemma SubmissionInputRequest(lib: Library, d: Digests, chains: Chains, input: Input, p: Published)
    returns (req: Request, staged: Envelope, states: seq<State>, j: nat)
    requires RoundTrips(lib) && InputOk(lib, d, SubmissionInput(input)) && SubmissionPublishes(chains, input, p)
    ensures ForSubmission(lib, d, req, input.plan, staged, input.signed, input)
    ensures p.receipt.Some? && p.receipt.value.(outcome := "") == ExpectedSigned(d, req, input.plan, input.signed)
    ensures p.block.Some? && p.block.value in chains(input.channel)
    ensures ShowsPlan(input.plan, p.block.value) && PassedSequence(input.plan, p.block.value)
    ensures RunPublishes(chains, input, states, j, p)
    ensures RaftSubmissionRuns.NodesCaughtUp(input, states[j].trace, states[j].shown.seen, p.block.value)
  {
    req, staged :| Reviewed(lib, req) == Some(input.plan) && ForSubmission(lib, d, req, input.plan, staged, input.signed, input);
    assert ValidatePlan(lib, req.plan.value, input.channel) == Some(input.plan);
    states, j :| RunPublishes(chains, input, states, j, p);
    RaftSubmissionRuns.EvidenceIsSound(lib, input, states, j, states[j].evidence.value);
  }

  /** A receipt that agrees with two operations: they are the same. */
  lemma SameOperation(d: Digests, req: Request, plan: Plan, signed: Envelope, req': Request, plan': Plan, signed': Envelope)
    requires DigestsOk(d) && ExpectedSigned(d, req, plan, signed) == ExpectedSigned(d, req', plan', signed')
    ensures req.channel == req'.channel && req.id == req'.id && req.adminOrg == req'.adminOrg && req.orderer == req'.orderer
    ensures plan == plan' && signed == signed'
  {
  }

  lemma SubmissionReadyIsSound(lib: Library, d: Digests, chains: Chains, req: Request, plan: Plan, signed: Envelope, p: Published)
    requires RoundTrips(lib) && DigestsOk(d) && ResultOk(lib, d, chains, p) && Vouches(d, req, plan, signed, p)
    ensures SubmissionProven(lib, d, chains, req, plan, signed, p)
  {
    var script, input :| InputOk(lib, d, input) && Produces(chains, script, input, p);
    if script == Staging {
      var req', plan', request := StagingInputRequest(lib, d, chains, input, p);
      assert false;
    } else {
      var i := input.input;
      var req', staged, states, j := SubmissionInputRequest(lib, d, chains, i, p);
      SameOperation(d, req, plan, signed, req', i.plan, i.signed);
      assert PublishedIn(lib, d, chains, req, plan, signed, p, i, req'.cluster, states, j);
    }
  }

  lemma StagingReadyIsSound(lib: Library, d: Digests, chains: Chains, req: Request, plan: Plan, p: Published)
    requires RoundTrips(lib) && DigestsOk(d) && ResultOk(lib, d, chains, p) && Staged(d, req, plan, p, "alreadyApplied")
    requires Reviewed(lib, req) == Some(plan)
    ensures NothingToDo(d, chains, req, plan, p)
  {
    var script, input :| InputOk(lib, d, input) && Produces(chains, script, input, p);
    if script == Staging {
      var req', plan', request := StagingInputRequest(lib, d, chains, input, p);
      assert plan' == plan;
      UnchangedPlan(lib, req, plan);
    } else {
      var req', staged, states, j := SubmissionInputRequest(lib, d, chains, input.input, p);
      assert false;
    }
  }

  lemma UnchangedPlan(lib: Library, req: Request, plan: Plan)
    requires RoundTrips(lib) && Reviewed(lib, req) == Some(plan) && plan.action == "AlreadyApplied"
    ensures plan.updated == plan.original && ReadSource(lib, plan.original).Some?
  {
    ValidatorSound(lib, req.plan.value, req.channel);
    var before, after :| ReadsAsDelta(lib, plan, before, after);
  }

  /** The plan had nothing to change, and a block was fetched that is its original. */
  ghost predicate NothingToDo(d: Digests, chains: Chains, req: Request, plan: Plan, p: Published) {
    plan.action == "AlreadyApplied" && p.receipt.Some? && ReceiptAgrees(d, req, plan, p.receipt.value) &&
    p.block.Some? && p.block.value in chains(req.channel) && ShowsPlan(plan, p.block.value) &&
    p.block.value.config == plan.original == plan.updated
  }

  /**
   In every reachable cluster, a reconcile that reports Ready does so on a published block
   that carried the planned consenters: either the plan had nothing to change and its original
   was live, or the submission script published that block for exactly this operation, plan
   and envelope, at a greater sequence and with every desired node an active consenter.
   */
  lemma ReadyIsSound(lib: Library, d: Digests, chains: Chains, worlds: seq<World>, j: nat, req: Request, faults: set<Call>)
    requires RoundTrips(lib) && DigestsOk(d) && WorldRun(lib, d, chains, worlds) && j < |worlds|
    requires ReadyBy(lib, d, req, worlds[j], faults)
    ensures var plan := Reviewed(lib, req).value;
            exists p <- worlds[j].results.Values :: NothingToDo(d, chains, req, plan, p) ||
              (req.signed.Available? && SubmissionProven(lib, d, chains, req, plan, req.signed.value, p))
  {
    RunIsOk(lib, d, chains, worlds, j);
    var plan, w := Reviewed(lib, req).value, worlds[j];
    var stage := StageName(d, req, plan);
    if Staged(d, req, plan, w.results[stage], "alreadyApplied") {
      StagingReadyIsSound(lib, d, chains, req, plan, w.results[stage]);
      assert w.results[stage] in w.results.Values;
    } else {
      var name := SubmitName(d, req, plan, req.signed.value);
      SubmissionReadyIsSound(lib, d, chains, req, plan, req.signed.value, w.results[name]);
      assert w.results[name] in w.results.Values;
    }
  }

  /** What that means for a single consenter of the desired list: its node was seen as a healthy active consenter. */
  lemma DesiredConsenterIsActive(
    lib: Library, cl: Cluster, org: string, plan: Plan, input: Input, trace: seq<Event>, seen: nat, block: Block, c: Consenter)
    returns (p: nat)
    requires UniqueNames(cl, org) && PlacedFor(lib, cl, org, plan, input.nodes) && c in ListOf(lib, plan.updated).value
    requires RaftSubmissionRuns.NodesCaughtUp(input, trace, seen, block)
    ensures seen < p < |trace| && trace[p].Passed? && trace[p].node.name == NameOf(cl, org, c)
    ensures trace[p].state.healthy && trace[p].state.active && trace[p].state.relation == Voter
    ensures trace[p].state.height >= block.number + 1
  {
    var desired := ListOf(lib, plan.updated).value;
    NamedIsMember(cl, org, desired, c);
    assert NameOf(cl, org, c) in NodeNames(input.nodes);
    var k :| 0 <= k < |input.nodes| && input.nodes[k].name == NameOf(cl, org, c);
    assert input.nodes[k] in input.nodes && input.nodes[k].desired;
    assert RaftSubmissionRuns.CaughtUp(trace, seen, input.nodes[k], block.number + 1);
    p :| RaftSubmissionRuns.ActiveAt(trace, seen, p, input.nodes[k], block.number + 1);
  }
}
