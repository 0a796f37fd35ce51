/**
 The invariant of the submission protocol: what its trace must contain at every program
 point, and that none of it is lost when the trace grows.
 */
module RaftSubmissionInvariant {
  import opened Wrappers
  import opened Json
  import opened Decimal
  import opened Consenters
  import opened RaftPlan
  import opened FabricLedger
  import opened SubmissionNodes
  import opened RaftSubmission

  // ------------------------------------------------------------- what the trace must contain

  /** The fetch at position `i` returned the reviewed original config. */
  ghost predicate ReviewedAt(job: Input, trace: seq<Event>, i: nat) {
    i < |trace| && trace[i].Fetched? && trace[i].block.config == job.plan.original
  }

  /** At position `i` the node was found healthy, active, in its role and at least at the reference height. */
  ghost predicate PassedAt(trace: seq<Event>, i: nat, before: bool, node: Node, reference: nat) {
    i < |trace| && trace[i].Passed? && trace[i].before == before && trace[i].node == node && trace[i].reference == reference &&
    trace[i].state.healthy && trace[i].state.active && trace[i].state.height >= reference &&
    trace[i].state.relation == if before && !node.current then Follower else Voter
  }

  ghost predicate PassedWithin(trace: seq<Event>, lo: nat, hi: nat, before: bool, node: Node, reference: nat) {
    exists i: nat :: lo < i < hi && PassedAt(trace, i, before, node, reference)
  }

  /** Between positions lo and hi the tip was read and the first `count` nodes then passed against it. */
  ghost predicate Preflighted(job: Input, trace: seq<Event>, lo: nat, hi: nat, reference: nat, count: nat) {
    count <= |job.nodes| &&
    exists tip: nat :: lo < tip < hi && tip < |trace| && trace[tip] == TipRead(reference) &&
      forall k: nat :: k < count ==> PassedWithin(trace, tip, hi, true, job.nodes[k], reference)
  }

  /**
   Everything `peer channel update` waits for: the reviewed original was fetched, then every
   node passed its health, role and height check, then the reviewed original was fetched again.
   */
  ghost predicate ClearedBefore(job: Input, trace: seq<Event>, i: nat) {
    exists first: nat, second: nat, reference: nat ::
      first < second < i && ReviewedAt(job, trace, first) && ReviewedAt(job, trace, second) &&
      Preflighted(job, trace, first, second, reference, |job.nodes|)
  }

  ghost predicate SubmittedAt(trace: seq<Event>, i: nat, update: ConfigUpdate) {
    i < |trace| && trace[i] == Submitted(update)
  }

  ghost predicate SubmittedWithin(trace: seq<Event>, lo: nat, hi: nat, update: ConfigUpdate) {
    exists j: nat :: lo <= j < hi && SubmittedAt(trace, j, update)
  }

  /** The planned list was seen live, and after that the first `count` nodes, if desired, were active consenters at its height. */
  ghost predicate ConfirmedSince(job: Input, trace: seq<Event>, seen: nat, reference: nat, count: nat) {
    seen < |trace| && trace[seen].Fetched? && MembershipMatches(job, trace[seen].block.config) &&
    reference == trace[seen].block.number + 1 && count <= |job.nodes| &&
    forall k: nat :: k < count && job.nodes[k].desired ==>
      PassedWithin(trace, seen, |trace|, false, job.nodes[k], reference)
  }

  // ---------------------------------------------------- everything above survives more events

  lemma PassedWithinGrows(t: seq<Event>, u: seq<Event>, lo: nat, hi: nat, hi': nat, before: bool, node: Node, reference: nat)
    requires t <= u && hi <= hi' && PassedWithin(t, lo, hi, before, node, reference)
    ensures PassedWithin(u, lo, hi', before, node, reference)
  {
    var i: nat :| lo < i < hi && PassedAt(t, i, before, node, reference);
    assert PassedAt(u, i, before, node, reference);
  }

  lemma PreflightedGrows(job: Input, t: seq<Event>, u: seq<Event>, lo: nat, hi: nat, hi': nat, reference: nat, count: nat)
    requires t <= u && hi <= hi' && Preflighted(job, t, lo, hi, reference, count)
    ensures Preflighted(job, u, lo, hi', reference, count)
  {
    var tip: nat :| lo < tip < hi && tip < |t| && t[tip] == TipRead(reference) &&
      forall k: nat :: k < count ==> PassedWithin(t, tip, hi, true, job.nodes[k], reference);
    forall k: nat | k < count
      ensures PassedWithin(u, tip, hi', true, job.nodes[k], reference)
    {
      PassedWithinGrows(t, u, tip, hi, hi', true, job.nodes[k], reference);
    }
    assert u[tip] == TipRead(reference);
  }

  lemma ClearedGrows(job: Input, t: seq<Event>, u: seq<Event>, i: nat)
    requires t <= u && ClearedBefore(job, t, i)
    ensures ClearedBefore(job, u, i)
  {
    var first: nat, second: nat, reference: nat :|
      first < second < i && ReviewedAt(job, t, first) && ReviewedAt(job, t, second) &&
      Preflighted(job, t, first, second, reference, |job.nodes|);
    PreflightedGrows(job, t, u, first, second, second, reference, |job.nodes|);
    assert ReviewedAt(job, u, first) && ReviewedAt(job, u, second);
  }

  lemma SubmittedWithinGrows(t: seq<Event>, u: seq<Event>, lo: nat, i: nat, j: nat, update: ConfigUpdate)
    requires t <= u && i <= j && SubmittedWithin(t, lo, i, update)
    ensures SubmittedWithin(u, lo, j, update)
  {
    var k: nat :| lo <= k < i && SubmittedAt(t, k, update);
    assert SubmittedAt(u, k, update);
  }

  lemma ConfirmedGrows(job: Input, t: seq<Event>, u: seq<Event>, seen: nat, reference: nat, count: nat)
    requires t <= u && ConfirmedSince(job, t, seen, reference, count)
    ensures ConfirmedSince(job, u, seen, reference, count)
  {
    assert u[seen] == t[seen];
    forall k: nat | k < count && job.nodes[k].desired
      ensures PassedWithin(u, seen, |u|, false, job.nodes[k], reference)
    {
      PassedWithinGrows(t, u, seen, |t|, |u|, false, job.nodes[k], reference);
    }
  }

  // ----------------------------------------------------------------------------- the invariant

  /** Whatever was fetched had been committed. */
  ghost predicate Grounded(ledger: seq<Block>, trace: seq<Event>) {
    forall i :: 0 <= i < |trace| && trace[i].Fetched? ==> trace[i].block in ledger
  }

  ghost predicate ChannelOk(ledger: seq<Block>, height: nat) {
    History(ledger) && ledger[|ledger| - 1].number < height
  }

  /** Every submission was of the verified update and fully cleared. */
  ghost predicate SubmissionsOk(job: Input, trace: seq<Event>) {
    forall i: nat, u :: SubmittedAt(trace, i, u) ==>
      u == job.signed.update && EnvelopesMatch(job) && ClearedBefore(job, trace, i)
  }

  ghost predicate InboxOk(inbox: set<ConfigUpdate>, trace: seq<Event>) {
    forall u <- inbox :: SubmittedWithin(trace, 0, |trace|, u)
  }

  /** The outcome tells whether the attempt that began at `began` submitted before position `upTo`. */
  ghost predicate OutcomeOk(job: Input, trace: seq<Event>, outcome: string, began: nat, upTo: nat) {
    began <= upTo <= |trace| &&
    ((outcome == "submitted" && SubmittedWithin(trace, began, upTo, job.signed.update)) ||
     (outcome == "alreadyApplied" && !SubmittedWithin(trace, began, upTo, job.signed.update)))
  }

  /** Nothing was submitted in this attempt yet. */
  ghost predicate Quiet(job: Input, began: nat, trace: seq<Event>) {
    !SubmittedWithin(trace, began, |trace|, job.signed.update)
  }

  ghost predicate PointOk(job: Input, at: Point, began: nat, trace: seq<Event>) {
    match at
    case Start => began == |trace|
    case Verified => EnvelopesMatch(job) && began == |trace|
    case Looked(first) => EnvelopesMatch(job) && Quiet(job, began, trace) && first < |trace| && trace[first].Fetched?
    case Fresh(first) => EnvelopesMatch(job) && Quiet(job, began, trace) && ReviewedAt(job, trace, first)
    case Preflight(first, reference, checked) =>
      EnvelopesMatch(job) && Quiet(job, began, trace) && ReviewedAt(job, trace, first) &&
      Preflighted(job, trace, first, |trace|, reference, checked)
    case Cleared(first, second) =>
      EnvelopesMatch(job) && Quiet(job, began, trace) && ClearedBefore(job, trace, |trace|)
    case Awaiting(outcome) => EnvelopesMatch(job) && OutcomeOk(job, trace, outcome, began, |trace|)
    case Confirmed(outcome, seen, reference, checked) =>
      EnvelopesMatch(job) && OutcomeOk(job, trace, outcome, began, seen) &&
      ConfirmedSince(job, trace, seen, reference, checked)
    case Published => true
    case Failed => true
  }

  /** What a published receipt proves, about the attempt that published it. */
  ghost predicate Proves(job: Input, trace: seq<Event>, e: Evidence, shown: Attempt) {
    EnvelopesMatch(job) && e.envelope == job.signed && e.receipt == job.request.(outcome := e.receipt.outcome) &&
    shown.seen < |trace| && trace[shown.seen] == Fetched(e.block) &&
    ConfirmedSince(job, trace, shown.seen, e.block.number + 1, |job.nodes|) &&
    OutcomeOk(job, trace, e.receipt.outcome, shown.began, shown.seen)
  }

  lemma ProvesGrows(job: Input, t: seq<Event>, u: seq<Event>, e: Evidence, shown: Attempt)
    requires t <= u && Proves(job, t, e, shown)
    ensures Proves(job, u, e, shown)
  {
    ConfirmedGrows(job, t, u, shown.seen, e.block.number + 1, |job.nodes|);
    SameSubmissions(t, u, shown.began, shown.seen, job.signed.update);
    assert u[shown.seen] == Fetched(e.block);
  }

  lemma SameSubmissions(t: seq<Event>, u: seq<Event>, lo: nat, hi: nat, update: ConfigUpdate)
    requires t <= u && hi <= |t|
    ensures SubmittedWithin(t, lo, hi, update) <==> SubmittedWithin(u, lo, hi, update)
  {
    if SubmittedWithin(u, lo, hi, update) {
      var k: nat :| lo <= k < hi && SubmittedAt(u, k, update);
      assert SubmittedAt(t, k, update);
    } else if SubmittedWithin(t, lo, hi, update) {
      SubmittedWithinGrows(t, u, lo, hi, hi, update);
    }
  }

  ghost predicate EvidenceOk(job: Input, trace: seq<Event>, evidence: Option<Evidence>, shown: Attempt) {
    evidence.Some? ==> Proves(job, trace, evidence.value, shown)
  }

  /** The script's half: the trace justifies the program point, what was submitted and what was published. */
  ghost predicate ScriptInv(job: Input, s: State) {
    Grounded(s.ledger, s.trace) && SubmissionsOk(job, s.trace) && InboxOk(s.inbox, s.trace) &&
    s.began <= |s.trace| && PointOk(job, s.at, s.began, s.trace) && EvidenceOk(job, s.trace, s.evidence, s.shown)
  }

  ghost predicate Inv(job: Input, s: State) {
    ChannelOk(s.ledger, s.height) && ScriptInv(job, s)
  }
}
