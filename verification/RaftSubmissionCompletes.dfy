/**
 The submission protocol can do its work: from every channel whose newest config is the
 reviewed original there is a run that submits, commits and publishes. This is the counterpart of the
 safety theorems, which would also hold of a script that never submits.
 */
module RaftSubmissionCompletes {
  import opened Wrappers
  import opened Runs
  import opened Json
  import opened Decimal
  import opened Consenters
  import opened RaftPlan
  import opened FabricLedger
  import opened SubmissionNodes
  import opened RaftSubmission
  import opened RaftSubmissionInvariant
  import opened RaftSubmissionRuns

  /** Nodes that pass: all healthy, active and high enough; before the change newcomers only follow. */
  function Healthy(nodes: seq<Node>, before: bool, height: nat): map<string, NodeState> {
    if nodes == [] then map[]
    else
      var last := nodes[|nodes| - 1];
      Healthy(nodes[..|nodes| - 1], before, height)
        [last.name := NodeState(true, true, if before && !last.current then Follower else Voter, height)]
  }

  lemma {:induction false} HealthyPasses(nodes: seq<Node>, before: bool, height: nat, k: nat)
    requires Distinct(nodes) && k < |nodes|
    ensures nodes[k].name in Healthy(nodes, before, height)
    ensures Passes(before, nodes[k], Healthy(nodes, before, height)[nodes[k].name], height)
  {
    if k < |nodes| - 1 {
      assert Distinct(nodes[..|nodes| - 1]) && nodes[..|nodes| - 1][k] == nodes[k];
      HealthyPasses(nodes[..|nodes| - 1], before, height, k);
    }
  }

  /** `t` can be reached from the initial state `s`. */
  ghost predicate Reachable(job: Input, s: State, t: State) {
    exists states: seq<State> :: Run(job, states) && states[0] == s && states[|states| - 1] == t
  }

  lemma StartReachable(job: Input, s: State)
    requires Init(s)
    ensures Reachable(job, s, s)
  {
    assert Run(job, [s]);
  }

  lemma Then(job: Input, s: State, t: State, u: State)
    requires Reachable(job, s, t) && Step(job, t, u)
    ensures Reachable(job, s, u)
  {
    var states: seq<State> :| Run(job, states) && states[0] == s && states[|states| - 1] == t;
    RunExtends(states, s => Init(s), (s, t) => Step(job, s, t), u);
    assert (states + [u])[0] == s;
  }

  // ------------------------------------------------------------------------------- the two check loops

  lemma {:induction false} AllPassBefore(job: Input, s: State, t: State) returns (u: State)
    requires Distinct(job.nodes) && Reachable(job, s, t) && t.at.Preflight? && t.at.checked <= |job.nodes|
    requires t.nodes == Healthy(job.nodes, true, t.at.reference)
    ensures Reachable(job, s, u) && t.trace <= u.trace
    ensures u == t.(at := Preflight(t.at.first, t.at.reference, |job.nodes|), trace := u.trace)
    decreases |job.nodes| - t.at.checked
  {
    if t.at.checked == |job.nodes| {
      u := t;
    } else {
      var node := job.nodes[t.at.checked];
      HealthyPasses(job.nodes, true, t.at.reference, t.at.checked);
      var next := t.(at := Preflight(t.at.first, t.at.reference, t.at.checked + 1),
                     trace := t.trace + [Passed(true, node, t.nodes[node.name], t.at.reference)]);
      assert CheckBeforeStep(job, t, next);
      Then(job, s, t, next);
      u := AllPassBefore(job, s, next);
    }
  }

  lemma {:induction false} AllPassAfter(job: Input, s: State, t: State) returns (u: State)
    requires Distinct(job.nodes) && Reachable(job, s, t) && t.at.Confirmed? && t.at.checked <= |job.nodes|
    requires t.nodes == Healthy(job.nodes, false, t.at.reference)
    ensures Reachable(job, s, u) && t.trace <= u.trace
    ensures u == t.(at := Confirmed(t.at.outcome, t.at.seen, t.at.reference, |job.nodes|), trace := u.trace)
    decreases |job.nodes| - t.at.checked
  {
    if t.at.checked == |job.nodes| {
      u := t;
    } else {
      var node := job.nodes[t.at.checked];
      HealthyPasses(job.nodes, false, t.at.reference, t.at.checked);
      var passed := if node.desired then [Passed(false, node, t.nodes[node.name], t.at.reference)] else [];
      var next := t.(at := Confirmed(t.at.outcome, t.at.seen, t.at.reference, t.at.checked + 1), trace := t.trace + passed);
      assert CheckAfterStep(job, t, next) by { assert t.trace + [] == t.trace; }
      Then(job, s, t, next);
      u := AllPassAfter(job, s, next);
    }
  }

  // ------------------------------------------------------------------------------------ the stages

  /** The situation the protocol is made for. */
  ghost predicate Prepared(lib: Library, job: Input) {
    Reviewed(lib, job) && EnvelopesMatch(job) && Distinct(job.nodes) && Accepts(job.plan.original, job.signed.update)
  }

  /** The reviewed original does not pass for its own successor. */
  lemma OriginalIsNotApplied(lib: Library, job: Input)
    requires Reviewed(lib, job) && Live(job.plan.original)
    ensures !MembershipMatches(job, job.plan.original)
  {
    ReviewedSequence(lib, job);
    SameSequenceText(job.plan.original);
    ScriptGreaterIsNumeric(job.plan.sequence, job.plan.sequence);
  }

  /** Whatever the nodes are like at first, they can come to health. */
  lemma ReachesHealth(job: Input, s: State) returns (u: State)
    requires Init(s)
    ensures Reachable(job, s, u) && u == s.(nodes := Healthy(job.nodes, true, s.height))
  {
    StartReachable(job, s);
    RecoveryIsStep(job, s, Healthy(job.nodes, true, s.height));
    u := s.(nodes := Healthy(job.nodes, true, s.height));
    Then(job, s, s, u);
  }

  lemma ReachesLooked(job: Input, s: State, t: State, b: Block) returns (u: State)
    requires Reachable(job, s, t) && t.at == Start && EnvelopesMatch(job) && b in t.ledger
    ensures Reachable(job, s, u) && u == t.(at := Looked(|t.trace|), trace := t.trace + [Fetched(b)])
  {
    var verified := t.(at := Verified);
    assert VerifyStep(job, t, verified);
    Then(job, s, t, verified);
    u := verified.(at := Looked(|t.trace|), trace := t.trace + [Fetched(b)]);
    assert FirstFetchStep(job, verified, u);
    Then(job, s, verified, u);
  }

  lemma ReachesFresh(job: Input, s: State, t: State, b: Block) returns (u: State)
    requires Reachable(job, s, t) && t.at == Start && EnvelopesMatch(job) && b in t.ledger
    requires b.config == job.plan.original && !MembershipMatches(job, b.config)
    ensures Reachable(job, s, u) && u == t.(at := Fresh(|t.trace|), trace := t.trace + [Fetched(b)])
  {
    var looked := ReachesLooked(job, s, t, b);
    u := looked.(at := Fresh(|t.trace|));
    assert looked.trace[|t.trace|] == Fetched(b);
    assert CompareStep(job, looked, u);
    Then(job, s, looked, u);
  }

  lemma ReachesSubmitted(job: Input, s: State, t: State, b: Block) returns (u: State)
    requires Distinct(job.nodes) && Reachable(job, s, t) && t.at.Fresh? && b in t.ledger
    requires b.config == job.plan.original && t.nodes == Healthy(job.nodes, true, t.height)
    ensures Reachable(job, s, u)
    ensures u == t.(at := Awaiting("submitted"), inbox := t.inbox + {job.signed.update}, trace := u.trace)
  {
    var tip := t.(at := Preflight(t.at.first, t.height, 0), trace := t.trace + [TipRead(t.height)]);
    assert TipStep(job, t, tip);
    Then(job, s, t, tip);
    var checked := AllPassBefore(job, s, tip);
    var cleared := checked.(at := Cleared(t.at.first, |checked.trace|), trace := checked.trace + [Fetched(b)]);
    assert SecondFetchStep(job, checked, cleared) by { assert b in checked.ledger; }
    Then(job, s, checked, cleared);
    u := cleared.(at := Awaiting("submitted"), inbox := cleared.inbox + {job.signed.update},
                  trace := cleared.trace + [Submitted(job.signed.update)]);
    assert SubmitStep(job, cleared, u);
    Then(job, s, cleared, u);
  }

  lemma CommitIsStep(job: Input, t: State, block: Block) returns (u: State)
    requires |t.ledger| > 0 && job.signed.update in t.inbox && Accepts(Tip(t.ledger), job.signed.update)
    requires block == Block(t.height, Apply(Tip(t.ledger), job.signed.update))
    ensures Step(job, t, u) && u == t.(ledger := t.ledger + [block], height := t.height + 1)
  {
    u := t.(ledger := t.ledger + [block], height := t.height + 1);
    assert OrderingCommit(t, u, job.signed.update);
  }

  lemma RecoveryIsStep(job: Input, t: State, nodes: map<string, NodeState>)
    ensures Step(job, t, t.(nodes := nodes))
  {
    assert t.(nodes := nodes) == t.(nodes := nodes, height := t.height);
    assert EnvironmentStep(t, t.(nodes := nodes));
  }

  /** The commit, and nodes that have become consenters at its height. */
  lemma ReachesCommit(job: Input, s: State, t: State, block: Block) returns (u: State)
    requires Reachable(job, s, t) && |t.ledger| > 0 && job.signed.update in t.inbox
    requires Accepts(Tip(t.ledger), job.signed.update)
    requires block == Block(t.height, Apply(Tip(t.ledger), job.signed.update))
    ensures Reachable(job, s, u) && u.at == t.at && block in u.ledger
    ensures u.nodes == Healthy(job.nodes, false, block.number + 1)
  {
    var committed := CommitIsStep(job, t, block);
    Then(job, s, t, committed);
    assert committed.ledger[|t.ledger|] == block;
    var nodes := Healthy(job.nodes, false, block.number + 1);
    RecoveryIsStep(job, committed, nodes);
    u := committed.(nodes := nodes);
    Then(job, s, committed, u);
  }

  lemma ReachesConfirmed(job: Input, s: State, t: State, block: Block) returns (u: State)
    requires Reachable(job, s, t) && t.at == Awaiting("submitted") && block in t.ledger && MembershipMatches(job, block.config)
    ensures Reachable(job, s, u)
    ensures u == t.(at := Confirmed("submitted", |t.trace|, block.number + 1, 0), trace := t.trace + [Fetched(block)])
  {
    u := t.(at := Confirmed("submitted", |t.trace|, block.number + 1, 0), trace := t.trace + [Fetched(block)]);
    PollIsStep(job, t, u, block);
    Then(job, s, t, u);
  }

  lemma PollIsStep(job: Input, t: State, u: State, block: Block)
    requires t.at == Awaiting("submitted") && block in t.ledger && MembershipMatches(job, block.config)
    requires u == t.(at := Confirmed("submitted", |t.trace|, block.number + 1, 0), trace := t.trace + [Fetched(block)])
    ensures Step(job, t, u)
  {
    assert PollStep(job, t, u);
  }

  lemma ReachesPublished(job: Input, s: State, t: State, block: Block) returns (u: State)
    requires Distinct(job.nodes) && Reachable(job, s, t)
    requires t.at.Confirmed? && t.at.outcome == "submitted" && t.at.checked == 0 && t.at.reference == block.number + 1
    requires t.at.seen < |t.trace| && t.trace[t.at.seen] == Fetched(block)
    requires t.nodes == Healthy(job.nodes, false, block.number + 1)
    ensures Reachable(job, s, u)
    ensures u.evidence == Some(Evidence(job.request.(outcome := "submitted"), block, job.signed))
  {
    var checked := AllPassAfter(job, s, t);
    assert checked.trace[t.at.seen] == Fetched(block);
    u := checked.(at := Published, evidence := Some(Evidence(job.request.(outcome := "submitted"), block, job.signed)),
                  shown := Attempt(checked.began, t.at.seen));
    assert PublishStep(job, checked, u);
    Then(job, s, checked, u);
  }

  lemma FirstCommitMatches(lib: Library, job: Input)
    requires Prepared(lib, job)
    ensures MembershipMatches(job, Apply(job.plan.original, job.signed.update))
  {
    NextSequencePasses(lib, job, job.plan.original);
    AppliedMatches(lib, job, job.plan.original, job.signed.update);
  }

  lemma FirstHalf(lib: Library, job: Input, s: State) returns (t: State)
    requires Prepared(lib, job) && Init(s) && Tip(s.ledger) == job.plan.original
    ensures Reachable(job, s, t) && t.at == Awaiting("submitted")
    ensures t.ledger == s.ledger && t.height == s.height && job.signed.update in t.inbox
  {
    var b := s.ledger[|s.ledger| - 1];
    OriginalIsNotApplied(lib, job);
    var healthy := ReachesHealth(job, s);
    var looked := ReachesFresh(job, s, healthy, b);
    t := ReachesSubmitted(job, s, looked, b);
  }

  lemma SecondHalf(job: Input, s: State, t: State, block: Block) returns (u: State)
    requires Distinct(job.nodes) && Reachable(job, s, t) && t.at == Awaiting("submitted") && block in t.ledger
    requires MembershipMatches(job, block.config) && t.nodes == Healthy(job.nodes, false, block.number + 1)
    ensures Reachable(job, s, u)
    ensures u.evidence == Some(Evidence(job.request.(outcome := "submitted"), block, job.signed))
  {
    var confirmed := ReachesConfirmed(job, s, t, block);
    u := ReachesPublished(job, s, confirmed, block);
  }

  lemma CommitAndPublish(job: Input, s: State, t: State, tip: Json) returns (u: State)
    requires Distinct(job.nodes) && Reachable(job, s, t) && t.at == Awaiting("submitted") && |t.ledger| > 0
    requires job.signed.update in t.inbox && tip == Tip(t.ledger) && Accepts(tip, job.signed.update)
    requires MembershipMatches(job, Apply(tip, job.signed.update))
    ensures Reachable(job, s, u)
    ensures u.evidence == Some(Evidence(job.request.(outcome := "submitted"),
                                        Block(t.height, Apply(tip, job.signed.update)), job.signed))
  {
    var block := Block(t.height, Apply(tip, job.signed.update));
    var committed := ReachesCommit(job, s, t, block);
    u := SecondHalf(job, s, committed, block);
  }

  /** From every initial state whose newest config is the reviewed original, some run publishes the submitted update. */
  lemma CanComplete(lib: Library, job: Input, s: State) returns (u: State)
    requires Prepared(lib, job) && Init(s) && Tip(s.ledger) == job.plan.original
    ensures Reachable(job, s, u)
    ensures u.evidence == Some(Evidence(job.request.(outcome := "submitted"),
                                        Block(s.height, Apply(job.plan.original, job.signed.update)), job.signed))
  {
    var t := FirstHalf(lib, job, s);
    FirstCommitMatches(lib, job);
    u := CommitAndPublish(job, s, t, job.plan.original);
  }
}
