/**
 The safety theorems of the submission protocol, for every run of the script interleaved
 with any other config commits: what must have happened before `peer channel update`, what
 the ordering service can commit because of it, how often, and what published evidence proves.
 */
module RaftSubmissionRuns {
  import opened Wrappers
  import opened Runs
  import opened Json
  import opened Decimal
  import opened Consenters
  import opened Membership
  import opened RaftPlan
  import opened RaftPlanLaws
  import opened RaftMembership
  import opened FabricLedger
  import opened SubmissionNodes
  import opened RaftSubmission
  import opened RaftSubmissionInvariant
  import opened RaftSubmissionSafety

  /** The Job's plan is one that ValidateRaftPlan returned for this channel. */
  ghost predicate Reviewed(lib: Library, job: Input) {
    RoundTrips(lib) && exists supplied :: ValidatePlan(lib, supplied, job.channel) == Some(job.plan)
  }

  lemma ReviewedFacts(lib: Library, job: Input) returns (before: Source, after: Source)
    requires Reviewed(lib, job)
    ensures AgreeOff(job.plan.original, job.plan.updated, ConsentersPath)
    ensures ReadsAsDelta(lib, job.plan, before, after)
  {
    var supplied :| ValidatePlan(lib, supplied, job.channel) == Some(job.plan);
    ValidatorSound(lib, supplied, job.channel);
    before, after :| ReadsAsDelta(lib, job.plan, before, after);
  }

  // ----------------------------------------------------------------- the invariant along runs

  lemma UpdateHasValue(lib: Library, job: Input)
    requires Reviewed(lib, job) && EnvelopesMatch(job)
    ensures job.signed.update.value != Null
    ensures Lookup(job.plan.updated, ConsensusPath) == Ok(job.signed.update.value)
    ensures Text(job.plan.original, VersionPath) == Some(job.signed.update.base)
  {
    var before, after := ReviewedFacts(lib, job);
  }

  /** All that the invariant needs to know about the plan: the update writes a value. */
  ghost predicate Writes(job: Input) {
    EnvelopesMatch(job) ==> job.signed.update.value != Null
  }

  lemma ReviewedWrites(lib: Library, job: Input)
    requires Reviewed(lib, job)
    ensures Writes(job)
  {
    if EnvelopesMatch(job) {
      UpdateHasValue(lib, job);
    }
  }

  lemma InboxHolds(job: Input, s: State, update: ConfigUpdate)
    requires ScriptInv(job, s) && update in s.inbox
    ensures update == job.signed.update && EnvelopesMatch(job)
    ensures exists i: nat :: SubmittedAt(s.trace, i, update) && ClearedBefore(job, s.trace, i)
  {
    assert SubmittedWithin(s.trace, 0, |s.trace|, update);
    var i: nat :| SubmittedAt(s.trace, i, update);
  }

  lemma InboxHasValue(job: Input, s: State, update: ConfigUpdate)
    requires Writes(job) && ScriptInv(job, s) && update in s.inbox
    ensures update.value != Null
  {
    InboxHolds(job, s, update);
  }

  /** An accepted update makes a block that extends the channel's history. */
  lemma OrderingExtends(s: State, t: State, update: ConfigUpdate)
    requires ChannelOk(s.ledger, s.height) && update.value != Null && OrderingCommit(s, t, update)
    ensures ChannelOk(t.ledger, t.height) && s.ledger < t.ledger
  {
    ApplyExtends(s.ledger, update, t.ledger[|s.ledger|].number);
  }

  lemma ForeignExtends(s: State, t: State)
    requires ChannelOk(s.ledger, s.height) && ForeignCommit(s, t)
    ensures ChannelOk(t.ledger, t.height) && s.ledger < t.ledger
  {
    HistoryGrows(s.ledger, t.ledger[|s.ledger|]);
  }

  /** Only the ledger and the nodes changed. */
  lemma OutsideStep(job: Input, s: State, t: State)
    requires ScriptInv(job, s) && s.ledger <= t.ledger
    requires t == s.(ledger := t.ledger, height := t.height, nodes := t.nodes)
    ensures ScriptInv(job, t)
  {
    assert Grounded(t.ledger, t.trace) by {
      forall i | 0 <= i < |s.trace| && s.trace[i].Fetched?
        ensures s.trace[i].block in t.ledger
      {
        var k :| 0 <= k < |s.ledger| && s.ledger[k] == s.trace[i].block;
        assert t.ledger[k] == s.trace[i].block;
      }
    }
  }

  lemma StepKeepsInv(job: Input, s: State, t: State)
    requires Writes(job) && Inv(job, s) && Step(job, s, t)
    ensures Inv(job, t)
    ensures s.ledger <= t.ledger
  {
    if ScriptStep(job, s, t) {
      ScriptKeepsInv(job, s, t);
      ScriptKeepsChannel(job, s, t);
    } else {
      if EnvironmentStep(s, t) {
        if ForeignCommit(s, t) {
          ForeignExtends(s, t);
        }
      } else {
        var update :| OrderingCommit(s, t, update);
        InboxHasValue(job, s, update);
        OrderingExtends(s, t, update);
      }
      OutsideStep(job, s, t);
    }
  }

  lemma ScriptKeepsChannel(job: Input, s: State, t: State)
    requires ScriptStep(job, s, t)
    ensures t.ledger == s.ledger && t.height == s.height
  {
  }

  /** The invariant holds in every state of every run, and the ledger only grows. */
  lemma RunKeepsInv(job: Input, states: seq<State>, i: nat, j: nat)
    requires Writes(job) && Run(job, states) && i <= j < |states|
    ensures Inv(job, states[j]) && states[i].ledger <= states[j].ledger
  {
    forall s | Init(s)
      ensures Inv(job, s)
    {
      InitHasInv(job, s);
    }
    forall s, t | Inv(job, s) && Step(job, s, t)
      ensures Inv(job, t) && s.ledger <= t.ledger
    {
      StepKeepsInv(job, s, t);
    }
    RelationHolds(states, s => Init(s), (s, t) => Step(job, s, t), s => Inv(job, s),
                  (s: State, t: State) => s.ledger <= t.ledger, i, j);
  }

  // -------------------------------------------------------------- when the update is submitted

  /**
   `peer channel update` executes only with the staged update, which is the diff of the
   reviewed plan, after two fetches that returned the reviewed original and a passed check
   of every node between them.
   */
  lemma SubmitsOnlyWhenCleared(lib: Library, job: Input, states: seq<State>, j: nat, i: nat, update: ConfigUpdate)
    requires Reviewed(lib, job) && Run(job, states) && j < |states| && SubmittedAt(states[j].trace, i, update)
    ensures update == job.signed.update == job.staged.update && job.signed.signatures > 0
    ensures job.signed.headerType == 2 && job.signed.channel == update.channel == job.channel
    ensures ComputeUpdate(job.channel, job.plan.original, job.plan.updated) == Some(update)
    ensures ClearedBefore(job, states[j].trace, i)
  {
    ReviewedWrites(lib, job);
    RunKeepsInv(job, states, j, j);
  }

  // ---------------------------------------------------------------- what it can change

  function Tip(ledger: seq<Block>): Json
    requires |ledger| > 0
  {
    ledger[|ledger| - 1].config
  }

  lemma FetchedIsCommitted(job: Input, s: State, i: nat) returns (k: nat)
    requires Grounded(s.ledger, s.trace) && ClearedBefore(job, s.trace, i)
    ensures k < |s.ledger| && s.ledger[k].config == job.plan.original
  {
    var first: nat, second: nat :| first < second < i && ReviewedAt(job, s.trace, first) && ReviewedAt(job, s.trace, second);
    assert ReviewedAt(job, s.trace, first);
    var b := s.trace[first].block;
    assert b in s.ledger;
    k :| 0 <= k < |s.ledger| && s.ledger[k] == b;
  }

  /** The reviewed original was fetched, so it is one of the channel's committed configs. */
  lemma ReviewedIsCommitted(job: Input, s: State, update: ConfigUpdate) returns (k: nat)
    requires ScriptInv(job, s) && update in s.inbox
    ensures k < |s.ledger| && s.ledger[k].config == job.plan.original
  {
    assert SubmittedWithin(s.trace, 0, |s.trace|, update);
    var i: nat :| SubmittedAt(s.trace, i, update);
    k := FetchedIsCommitted(job, s, i);
  }

  lemma ReviewedBase(lib: Library, job: Input, s: State, update: ConfigUpdate) returns (k: nat)
    requires Reviewed(lib, job) && ScriptInv(job, s) && update in s.inbox
    ensures k < |s.ledger| && s.ledger[k].config == job.plan.original
    ensures Text(s.ledger[k].config, VersionPath) == Some(update.base)
  {
    k := ReviewedIsCommitted(job, s, update);
    InboxHolds(job, s, update);
    UpdateHasValue(lib, job);
  }

  /** Whatever was committed between the last fetch and the commit, the consensus value is still the reviewed one. */
  lemma SameBaseSameValue(ledger: seq<Block>, height: nat, k: nat, update: ConfigUpdate)
    requires ChannelOk(ledger, height) && k < |ledger|
    requires Text(ledger[k].config, VersionPath) == Some(update.base)
    requires Text(Tip(ledger), VersionPath) == Some(update.base)
    ensures Lookup(Tip(ledger), ConsensusPath) == Lookup(ledger[k].config, ConsensusPath)
  {
    VersionDeterminesElement(ledger, k, |ledger| - 1);
  }

  /** A live config with the consensus value of a readable one reads the same consenters. */
  lemma ReadThroughConsensus(lib: Library, reviewed: Json, config: Json)
    requires ReadSource(lib, reviewed).Some? && Live(config)
    requires Lookup(config, ConsensusPath) == Lookup(reviewed, ConsensusPath)
    ensures Lookup(config, ConsentersPath) == Lookup(reviewed, ConsentersPath)
    ensures ReadSource(lib, config) ==
            Some(ReadSource(lib, reviewed).value.(sequence := Text(config, SequencePath).value))
  {
    LookupConcat(config, ConsensusPath, MetadataPath);
    LookupConcat(reviewed, ConsensusPath, MetadataPath);
  }

  /** A path that leaves p + q leaves p, or continues p and leaves q. */
  lemma {:induction false} DivergeSplit(p: Path, q: Path, other: Path)
    requires Diverge(p + q, other)
    ensures Diverge(p, other) || (p <= other && Diverge(q, other[|p|..]))
    decreases |p|
  {
    if p == [] {
      assert p + q == q && other[|p|..] == other;
    } else {
      DivergeTail(p + q, other);
      assert (p + q)[0] == p[0] && (p + q)[1..] == p[1..] + q;
      if other[0] != p[0] {
        assert p[..0] == other[..0];
      } else {
        DivergeSplit(p[1..], q, other[1..]);
        if Diverge(p[1..], other[1..]) {
          DivergeHead(p, other);
        } else {
          assert other[1..][|p| - 1..] == other[|p|..];
        }
      }
    }
  }

  lemma DivergeHead(p: Path, q: Path)
    requires p != [] && q != [] && p[0] == q[0] && Diverge(p[1..], q[1..])
    ensures Diverge(p, q)
  {
    var i :| 0 <= i < |p[1..]| && i < |q[1..]| && p[1..][..i] == q[1..][..i] && p[1..][i] != q[1..][i];
    assert p[..i + 1] == [p[0]] + p[1..][..i] && q[..i + 1] == [q[0]] + q[1..][..i];
    assert p[i + 1] == p[1..][i] && q[i + 1] == q[1..][i];
  }

  /** Off the consenter list, the element version and the sequence, the commit changes nothing. */
  lemma CommitFrame(job: Input, tip: Json, update: ConfigUpdate, other: Path)
    requires Accepts(tip, update) && update.value != Null
    requires AgreeOff(job.plan.original, job.plan.updated, ConsentersPath)
    requires Lookup(tip, ConsensusPath) == Lookup(job.plan.original, ConsensusPath)
    requires Lookup(job.plan.updated, ConsensusPath) == Ok(update.value)
    requires Diverge(ConsentersPath, other) && Diverge(VersionPath, other) && Diverge(SequencePath, other)
    ensures Lookup(Apply(tip, update), other) == Lookup(tip, other)
  {
    DivergeSplit(ConsensusPath, MetadataPath, other);
    if Diverge(ConsensusPath, other) {
      ApplyFrame(tip, update, other);
    } else {
      var rest := other[|ConsensusPath|..];
      assert other == ConsensusPath + rest;
      ApplyEffect(tip, update);
      AgreeOffDescend(job.plan.original, job.plan.updated, ConsensusPath, MetadataPath);
      LookupOffPath(Lookup(tip, ConsensusPath).value, update.value, MetadataPath, rest);
      LookupConcat(tip, ConsensusPath, rest);
      LookupConcat(Apply(tip, update), ConsensusPath, rest);
    }
  }

  /** One consenter at most comes or goes, on the list as it was at the tip, and nothing else moves. */
  ghost predicate DeltaCommitted(lib: Library, job: Input, tip: Json, after: Json) {
    Lookup(tip, ConsensusPath) == Lookup(job.plan.original, ConsensusPath) &&
    Lookup(after, ConsentersPath) == Lookup(job.plan.updated, ConsentersPath) &&
    OneDelta(lib, job.plan.action, tip, after) &&
    forall other ::
      Diverge(ConsentersPath, other) && Diverge(VersionPath, other) && Diverge(SequencePath, other) ==>
      Lookup(after, other) == Lookup(tip, other)
  }

  ghost predicate OneDelta(lib: Library, action: string, tip: Json, after: Json) {
    Admissible(lib, tip) && Admissible(lib, after) &&
    SingleDelta(action, ReadSource(lib, tip).value.entries, ReadSource(lib, after).value.entries) &&
    QuorumsMeet(Members(lib, tip), Members(lib, after))
  }

  lemma CommittedLists(lib: Library, job: Input, tip: Json, after: Json)
    requires Reviewed(lib, job) && Live(tip) && Live(after)
    requires Lookup(tip, ConsensusPath) == Lookup(job.plan.original, ConsensusPath)
    requires Lookup(after, ConsensusPath) == Lookup(job.plan.updated, ConsensusPath)
    ensures OneDelta(lib, job.plan.action, tip, after)
    ensures Lookup(after, ConsentersPath) == Lookup(job.plan.updated, ConsentersPath)
  {
    var before, now := ReviewedFacts(lib, job);
    ReadThroughConsensus(lib, job.plan.original, tip);
    ReadThroughConsensus(lib, job.plan.updated, after);
    OneChangeKeepsQuorums(KeySet(lib, before.consenters), KeySet(lib, now.consenters));
  }

  lemma ApplyDelta(lib: Library, job: Input, tip: Json, update: ConfigUpdate)
    requires Reviewed(lib, job) && EnvelopesMatch(job) && update == job.signed.update && Accepts(tip, update)
    requires Lookup(tip, ConsensusPath) == Lookup(job.plan.original, ConsensusPath)
    ensures DeltaCommitted(lib, job, tip, Apply(tip, update))
  {
    UpdateHasValue(lib, job);
    ApplyEffect(tip, update);
    ApplyCommits(tip, update);
    CommittedLists(lib, job, tip, Apply(tip, update));
    var before, now := ReviewedFacts(lib, job);
    forall other | Diverge(ConsentersPath, other) && Diverge(VersionPath, other) && Diverge(SequencePath, other)
      ensures Lookup(Apply(tip, update), other) == Lookup(tip, other)
    {
      CommitFrame(job, tip, update, other);
    }
  }

  lemma CommitFacts(s: State, t: State, update: ConfigUpdate)
    requires OrderingCommit(s, t, update)
    ensures update in s.inbox && |s.ledger| > 0 && |t.ledger| > 0
    ensures Text(Tip(s.ledger), VersionPath) == Some(update.base)
    ensures Accepts(Tip(s.ledger), update) && Tip(t.ledger) == Apply(Tip(s.ledger), update)
  {
  }

  /**
   Under Fabric's version check, whatever else is committed in between, the only change that
   the submitted update can make to the channel is the reviewed single-consenter delta.
   */
  lemma CommitsOnlyTheReviewedDelta(lib: Library, job: Input, states: seq<State>, j: nat, update: ConfigUpdate)
    requires Reviewed(lib, job) && Run(job, states) && j + 1 < |states|
    requires OrderingCommit(states[j], states[j + 1], update)
    ensures DeltaCommitted(lib, job, Tip(states[j].ledger), Tip(states[j + 1].ledger))
  {
    CommitFacts(states[j], states[j + 1], update);
    ReviewedWrites(lib, job);
    RunKeepsInv(job, states, j, j);
    InboxHolds(job, states[j], update);
    var k := ReviewedBase(lib, job, states[j], update);
    SameBaseSameValue(states[j].ledger, states[j].height, k, update);
    ApplyDelta(lib, job, Tip(states[j].ledger), update);
  }

  // ----------------------------------------------------------------------------- how often

  /** A committed update is never accepted again. */
  lemma VersionMovedOn(before: Json, ledger: seq<Block>, k: nat, update: ConfigUpdate)
    requires Accepts(before, update) && update.value != Null
    requires History(ledger) && k < |ledger| && ledger[k].config == Apply(before, update)
    ensures !Accepts(Tip(ledger), update)
  {
    ApplyCommits(before, update);
    assert k < |ledger| - 1 ==> Later(ledger[k].config, ledger[|ledger| - 1].config);
  }

  /** However often it is submitted, the update is committed at most once. */
  lemma CommitsAtMostOnce(lib: Library, job: Input, states: seq<State>, i: nat, j: nat, update: ConfigUpdate, again: ConfigUpdate)
    requires Reviewed(lib, job) && Run(job, states) && i < |states| - 1 && j < |states| - 1
    requires OrderingCommit(states[i], states[i + 1], update) && OrderingCommit(states[j], states[j + 1], again)
    ensures i == j
  {
    ReviewedWrites(lib, job);
    if i < j {
      SecondCommitRefused(job, states, i, j, update, again);
    } else if j < i {
      SecondCommitRefused(job, states, j, i, again, update);
    }
  }

  lemma SecondCommitRefused(job: Input, states: seq<State>, i: nat, j: nat, update: ConfigUpdate, again: ConfigUpdate)
    requires Writes(job) && Run(job, states) && i < j < |states| - 1
    requires OrderingCommit(states[i], states[i + 1], update)
    ensures !OrderingCommit(states[j], states[j + 1], again)
  {
    if again in states[j].inbox {
      Aftermath(job, states, i, j, update, again);
      RefusedAgain(states[i], states[i + 1], states[j], states[j + 1], update);
    }
  }

  lemma Aftermath(job: Input, states: seq<State>, i: nat, j: nat, update: ConfigUpdate, again: ConfigUpdate)
    requires Writes(job) && Run(job, states) && i < j < |states|
    requires update in states[i].inbox && again in states[j].inbox
    ensures again == update && update.value != Null
    ensures History(states[j].ledger) && states[i + 1].ledger <= states[j].ledger
  {
    CommitsSame(job, states, i, j, update, again);
    RunHistory(job, states, i + 1, j);
  }

  lemma RefusedAgain(s: State, s': State, t: State, t': State, update: ConfigUpdate)
    requires OrderingCommit(s, s', update) && update.value != Null && s'.ledger <= t.ledger && History(t.ledger)
    ensures !OrderingCommit(t, t', update)
  {
    CommitFacts(s, s', update);
    StaleAfter(Tip(s.ledger), s'.ledger, t.ledger, update);
    if OrderingCommit(t, t', update) {
      CommitFacts(t, t', update);
    }
  }

  lemma StaleAfter(before: Json, past: seq<Block>, now: seq<Block>, update: ConfigUpdate)
    requires Accepts(before, update) && update.value != Null
    requires |past| > 0 && Tip(past) == Apply(before, update) && past <= now && History(now)
    ensures !Accepts(Tip(now), update)
  {
    StaysPut(past, now);
    VersionMovedOn(before, now, |past| - 1, update);
  }

  lemma RunHistory(job: Input, states: seq<State>, i: nat, j: nat)
    requires Writes(job) && Run(job, states) && i <= j < |states|
    ensures History(states[j].ledger) && states[i].ledger <= states[j].ledger
  {
    RunKeepsInv(job, states, i, j);
  }

  lemma StaysPut(shorter: seq<Block>, longer: seq<Block>)
    requires 0 < |shorter| && shorter <= longer
    ensures |shorter| <= |longer| && longer[|shorter| - 1].config == Tip(shorter)
  {
  }

  lemma CommitsSame(job: Input, states: seq<State>, i: nat, j: nat, update: ConfigUpdate, again: ConfigUpdate)
    requires Writes(job) && Run(job, states) && i < j < |states|
    requires update in states[i].inbox && again in states[j].inbox
    ensures again == update && update.value != Null
  {
    RunKeepsInv(job, states, i, i);
    RunKeepsInv(job, states, j, j);
    SameUpdate(job, states[i], states[j], update, again);
  }

  lemma SameUpdate(job: Input, s: State, t: State, update: ConfigUpdate, again: ConfigUpdate)
    requires Writes(job) && ScriptInv(job, s) && ScriptInv(job, t) && update in s.inbox && again in t.inbox
    ensures update == again && update.value != Null
  {
    InboxHolds(job, s, update);
    InboxHolds(job, t, again);
  }

  // ------------------------------------------------------------------- what evidence proves

  /** The published block is committed and carries the planned list in normal Raft. */
  ghost predicate BlockShowsPlan(lib: Library, job: Input, s: State, e: Evidence) {
    e.block in s.ledger && Live(e.block.config) &&
    Lookup(e.block.config, ConsentersPath) == Lookup(job.plan.updated, ConsentersPath) &&
    Lookup(e.block.config, ConsensusPath).Ok? && NormalRaft(Lookup(e.block.config, ConsensusPath).value)
  }

  /** After the block was seen at `seen`, every desired node was healthy and an active consenter at least at its height. */
  ghost predicate NodesCaughtUp(job: Input, trace: seq<Event>, seen: nat, block: Block) {
    seen < |trace| && trace[seen] == Fetched(block) &&
    forall n <- job.nodes :: n.desired ==> CaughtUp(trace, seen, n, block.number + 1)
  }

  ghost predicate CaughtUp(trace: seq<Event>, seen: nat, n: Node, height: nat) {
    exists p: nat :: ActiveAt(trace, seen, p, n, height)
  }

  /** Position `p`, later than `seen`, records the node as healthy and as an active consenter of at least this height. */
  ghost predicate ActiveAt(trace: seq<Event>, seen: nat, p: nat, n: Node, height: nat) {
    seen < p < |trace| && trace[p].Passed? && trace[p].node == n && trace[p].state.healthy && trace[p].state.active &&
    trace[p].state.relation == Voter && trace[p].state.height >= height
  }

  lemma ProvesBlock(lib: Library, job: Input, s: State, e: Evidence)
    requires ChannelOk(s.ledger, s.height) && Grounded(s.ledger, s.trace) && Proves(job, s.trace, e, s.shown)
    ensures BlockShowsPlan(lib, job, s, e) && NodesCaughtUp(job, s.trace, s.shown.seen, e.block)
    ensures ScriptGreater(Text(e.block.config, SequencePath).value, job.plan.sequence)
  {
    var seen := s.shown.seen;
    assert s.trace[seen].block in s.ledger;
    forall n <- job.nodes | n.desired
      ensures CaughtUp(s.trace, seen, n, e.block.number + 1)
    {
      var k :| 0 <= k < |job.nodes| && job.nodes[k] == n;
      assert PassedWithin(s.trace, seen, |s.trace|, false, n, e.block.number + 1);
      var p: nat :| seen < p < |s.trace| && PassedAt(s.trace, p, false, n, e.block.number + 1);
      assert ActiveAt(s.trace, seen, p, n, e.block.number + 1);
    }
  }

  /** A plan whose original was fetched from the channel has a canonical sequence. */
  lemma CommittedSequence(lib: Library, job: Input)
    requires Reviewed(lib, job) && Live(job.plan.original)
    ensures Canonical(job.plan.sequence)
  {
    ReviewedSequence(lib, job);
    SameSequenceText(job.plan.original);
  }

  lemma ReviewedSequence(lib: Library, job: Input)
    requires Reviewed(lib, job)
    ensures TextField(job.plan.original, "sequence") == Some(job.plan.sequence)
  {
    var before, after := ReviewedFacts(lib, job);
  }

  lemma SameSequenceText(config: Json)
    requires Text(config, SequencePath).Some?
    ensures TextField(config, "sequence") == Text(config, SequencePath)
  {
    assert SequencePath[1..] == [];
  }

  /** The planner accepts only digit strings as sequences. */
  lemma ReviewedDigits(lib: Library, job: Input)
    requires Reviewed(lib, job)
    ensures Digits(job.plan.sequence) && job.plan.sequence != ""
  {
    var before, after := ReviewedFacts(lib, job);
  }

  lemma NumericSequence(lib: Library, job: Input, s: State, e: Evidence)
    requires Reviewed(lib, job) && Inv(job, s) && s.evidence == Some(e)
    ensures Digits(job.plan.sequence) && Live(e.block.config) && Sequence(e.block.config) > Value(job.plan.sequence)
  {
    ReviewedDigits(lib, job);
    ProvesBlock(lib, job, s, e);
    ScriptGreaterExactly(Text(e.block.config, SequencePath).value, job.plan.sequence);
  }

  lemma OutcomeIsSound(job: Input, s: State, e: Evidence)
    requires ScriptInv(job, s) && s.evidence == Some(e)
    ensures EnvelopesMatch(job) && e.envelope == job.signed && e.receipt == job.request.(outcome := e.receipt.outcome)
    ensures e.receipt.outcome == "submitted" || e.receipt.outcome == "alreadyApplied"
    ensures e.receipt.outcome == "submitted" <==> SubmittedWithin(s.trace, s.shown.began, s.shown.seen, job.signed.update)
    ensures Proves(job, s.trace, e, s.shown)
  {
  }

  /** The attempt that published did begin in this run, at the position recorded for it. */
  ghost predicate BeganIn(states: seq<State>, j: nat, began: nat) {
    exists i: nat :: i <= j && i < |states| && states[i].at == Start && |states[i].trace| == began
  }

  lemma AttemptStep(job: Input, s: State, t: State)
    requires Step(job, s, t)
    ensures t.began == s.began || (t.at == Start && t.began == |t.trace|)
    ensures (t.evidence == s.evidence && t.shown == s.shown) || t.shown.began == s.began
  {
  }

  lemma {:induction false} AttemptIsReal(job: Input, states: seq<State>, j: nat)
    requires Run(job, states) && j < |states|
    ensures BeganIn(states, j, states[j].began)
    ensures states[j].evidence.Some? ==> BeganIn(states, j, states[j].shown.began)
  {
    if j > 0 {
      AttemptIsReal(job, states, j - 1);
      AttemptAt(job, states, j);
      BeganGoesOn(states, j);
    }
  }

  lemma AttemptAt(job: Input, states: seq<State>, j: nat)
    requires Run(job, states) && 0 < j < |states|
    ensures states[j].began == states[j - 1].began || (states[j].at == Start && states[j].began == |states[j].trace|)
    ensures (states[j].evidence == states[j - 1].evidence && states[j].shown == states[j - 1].shown) ||
            states[j].shown.began == states[j - 1].began
  {
    assert Runs.Linked(states, (s, t) => Step(job, s, t), j - 1);
    AttemptStep(job, states[j - 1], states[j]);
  }

  lemma BeganGoesOn(states: seq<State>, j: nat)
    requires 0 < j < |states|
    ensures forall began :: BeganIn(states, j - 1, began) ==> BeganIn(states, j, began)
    ensures states[j].at == Start ==> BeganIn(states, j, |states[j].trace|)
  {
  }

  /**
   Published evidence is sound: its block is on the channel with the planned list at a
   numerically greater sequence, every desired node had caught up with it as an active
   consenter, the receipt is the request with the outcome, and the outcome tells whether the
   attempt that published had submitted before it saw the block.
   */
  lemma EvidenceIsSound(lib: Library, job: Input, states: seq<State>, j: nat, e: Evidence)
    requires Reviewed(lib, job) && Run(job, states) && j < |states| && states[j].evidence == Some(e)
    ensures EnvelopesMatch(job) && e.envelope == job.signed && e.receipt == job.request.(outcome := e.receipt.outcome)
    ensures BlockShowsPlan(lib, job, states[j], e) && NodesCaughtUp(job, states[j].trace, states[j].shown.seen, e.block)
    ensures Digits(job.plan.sequence) && Sequence(e.block.config) > Value(job.plan.sequence)
    ensures e.receipt.outcome == "submitted" || e.receipt.outcome == "alreadyApplied"
    ensures BeganIn(states, j, states[j].shown.began)
    ensures e.receipt.outcome == "submitted" <==>
            SubmittedWithin(states[j].trace, states[j].shown.began, states[j].shown.seen, job.signed.update)
  {
    ReviewedWrites(lib, job);
    RunKeepsInv(job, states, j, j);
    AttemptIsReal(job, states, j);
    OutcomeIsSound(job, states[j], e);
    ProvesBlock(lib, job, states[j], e);
    NumericSequence(lib, job, states[j], e);
  }

  // ----------------------------------------------------------- the script recognizes its own commit

  lemma SequenceOrder(ledger: seq<Block>, k: nat)
    requires History(ledger) && k < |ledger|
    ensures Live(ledger[k].config) && Live(Tip(ledger)) && Sequence(ledger[k].config) <= Sequence(Tip(ledger))
  {
    assert k < |ledger| - 1 ==> Later(ledger[k].config, ledger[|ledger| - 1].config);
  }

  /** The next sequence after the tip's passes the script's string test against the reviewed one. */
  lemma NextSequencePasses(lib: Library, job: Input, tip: Json)
    requires Reviewed(lib, job) && Live(job.plan.original) && Live(tip) && Sequence(job.plan.original) <= Sequence(tip)
    ensures ScriptGreater(Print(Sequence(tip) + 1), job.plan.sequence)
  {
    CommittedSequence(lib, job);
    ReviewedSequence(lib, job);
    SameSequenceText(job.plan.original);
    PrintRoundTrip(Sequence(tip) + 1);
    ScriptGreaterIsNumeric(Print(Sequence(tip) + 1), job.plan.sequence);
  }

  lemma AppliedMatches(lib: Library, job: Input, tip: Json, update: ConfigUpdate)
    requires Reviewed(lib, job) && EnvelopesMatch(job) && update == job.signed.update && Accepts(tip, update)
    requires Lookup(tip, ConsensusPath) == Lookup(job.plan.original, ConsensusPath)
    requires ScriptGreater(Print(Sequence(tip) + 1), job.plan.sequence)
    ensures MembershipMatches(job, Apply(tip, update))
  {
    var before, now := ReviewedFacts(lib, job);
    UpdateHasValue(lib, job);
    ApplyEffect(tip, update);
    ApplyCommits(tip, update);
    CommittedLists(lib, job, tip, Apply(tip, update));
  }

  /** Whatever tip it was committed on, the update's own commit passes the script's test for success. */
  lemma CommitIsRecognized(lib: Library, job: Input, states: seq<State>, j: nat, update: ConfigUpdate)
    requires Reviewed(lib, job) && Run(job, states) && j + 1 < |states|
    requires OrderingCommit(states[j], states[j + 1], update)
    ensures |states[j + 1].ledger| > 0 && MembershipMatches(job, Tip(states[j + 1].ledger))
  {
    CommitFacts(states[j], states[j + 1], update);
    ReviewedWrites(lib, job);
    RunKeepsInv(job, states, j, j);
    InboxHolds(job, states[j], update);
    var k := ReviewedBase(lib, job, states[j], update);
    SameBaseSameValue(states[j].ledger, states[j].height, k, update);
    SequenceOrder(states[j].ledger, k);
    NextSequencePasses(lib, job, Tip(states[j].ledger));
    AppliedMatches(lib, job, Tip(states[j].ledger), update);
  }

  // --------------------------------------------------------------- which nodes were checked

  /** Every current and every desired consenter was checked: the former as a voter, a newcomer as a follower. */
  lemma EveryConsenterChecked(
    cl: Cluster, org: string, current: seq<Consenter>, desired: seq<Consenter>, job: Input, trace: seq<Event>, i: nat, c: Consenter)
    returns (p: nat)
    requires UniqueNames(cl, org) && Placed(cl, org, current, desired, job.nodes) && ClearedBefore(job, trace, i)
    requires c in current || c in desired
    ensures p < i && p < |trace| && trace[p].Passed? && trace[p].node.name == NameOf(cl, org, c)
    ensures trace[p].state.healthy && trace[p].state.active && trace[p].state.height >= trace[p].reference
    ensures trace[p].state.relation == if c in current then Voter else Follower
    ensures exists tip: nat :: tip < p && trace[tip] == TipRead(trace[p].reference)
  {
    var first: nat, second: nat, reference: nat :|
      first < second < i && ReviewedAt(job, trace, first) && ReviewedAt(job, trace, second) &&
      Preflighted(job, trace, first, second, reference, |job.nodes|);
    assert Preflighted(job, trace, first, second, reference, |job.nodes|);
    var k := NodeFor(cl, org, current, desired, job.nodes, c);
    var tip: nat :| first < tip < second && tip < |trace| && trace[tip] == TipRead(reference) &&
      forall k: nat :: k < |job.nodes| ==> PassedWithin(trace, tip, second, true, job.nodes[k], reference);
    assert PassedWithin(trace, tip, second, true, job.nodes[k], reference);
    p :| tip < p < second && PassedAt(trace, p, true, job.nodes[k], reference);
    assert PassedAt(trace, p, true, job.nodes[k], reference);
  }

  lemma NodeFor(cl: Cluster, org: string, current: seq<Consenter>, desired: seq<Consenter>, nodes: seq<Node>, c: Consenter)
    returns (k: nat)
    requires UniqueNames(cl, org) && Placed(cl, org, current, desired, nodes) && (c in current || c in desired)
    ensures k < |nodes| && nodes[k].name == NameOf(cl, org, c) && (nodes[k].current <==> c in current)
  {
    assert NameOf(cl, org, c) in NodeNames(nodes);
    k :| 0 <= k < |nodes| && nodes[k].name == NameOf(cl, org, c);
    NamedIsMember(cl, org, current, c);
  }
}
