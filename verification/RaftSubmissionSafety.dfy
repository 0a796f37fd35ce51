/** Every step of the submission script keeps the protocol's invariant. */
module RaftSubmissionSafety {
  import opened Wrappers
  import opened FabricLedger
  import opened SubmissionNodes
  import opened RaftSubmission
  import opened RaftSubmissionInvariant

  // ------------------------------------------------------------------- it holds in every state

  lemma InitHasInv(job: Input, s: State)
    requires Init(s)
    ensures Inv(job, s)
  {
  }

  /** An event that is not a submission changes nothing about submissions. */
  lemma OtherEvent(job: Input, trace: seq<Event>, e: Event, began: nat)
    requires SubmissionsOk(job, trace) && !e.Submitted?
    ensures SubmissionsOk(job, trace + [e])
    ensures forall u :: SubmittedWithin(trace + [e], began, |trace| + 1, u) <==> SubmittedWithin(trace, began, |trace|, u)
  {
    var grown := trace + [e];
    forall i: nat, u | SubmittedAt(grown, i, u)
      ensures u == job.signed.update && EnvelopesMatch(job) && ClearedBefore(job, grown, i)
      ensures SubmittedAt(trace, i, u)
    {
      assert SubmittedAt(trace, i, u);
      ClearedGrows(job, trace, grown, i);
    }
    forall u | SubmittedWithin(trace, began, |trace|, u)
      ensures SubmittedWithin(grown, began, |grown|, u)
    {
      SubmittedWithinGrows(trace, grown, began, |trace|, |grown|, u);
    }
  }

  /** The parts of the invariant that every non-submitting step keeps in the same way. */
  ghost predicate Quietly(s: State, t: State, e: Event) {
    !e.Submitted? && (e.Fetched? ==> e.block in s.ledger) &&
    t == s.(at := t.at, trace := s.trace + [e])
  }

  lemma QuietStep(job: Input, s: State, t: State, e: Event)
    requires ScriptInv(job, s) && Quietly(s, t, e)
    requires PointOk(job, t.at, t.began, t.trace)
    ensures ScriptInv(job, t)
  {
    OtherEvent(job, s.trace, e, 0);
    forall u <- t.inbox
      ensures SubmittedWithin(t.trace, 0, |t.trace|, u)
    {
      assert SubmittedWithin(s.trace, 0, |s.trace|, u);
    }
    EvidenceGrows(job, s.trace, t.trace, s.evidence, s.shown);
  }

  lemma FirstFetchKeepsInv(job: Input, s: State, t: State)
    requires ScriptInv(job, s) && FirstFetchStep(job, s, t)
    ensures ScriptInv(job, t)
  {
    var b :| b in s.ledger && t.trace == s.trace + [Fetched(b)];
    OtherEvent(job, s.trace, Fetched(b), s.began);
    QuietStep(job, s, t, Fetched(b));
  }

  lemma PollKeepsInv(job: Input, s: State, t: State)
    requires ScriptInv(job, s) && PollStep(job, s, t)
    ensures ScriptInv(job, t)
  {
    var b :| b in s.ledger && t.trace == s.trace + [Fetched(b)];
    OtherEvent(job, s.trace, Fetched(b), s.began);
    SameSubmissions(s.trace, t.trace, s.began, |s.trace|, job.signed.update);
    QuietStep(job, s, t, Fetched(b));
  }

  lemma SecondFetchKeepsInv(job: Input, s: State, t: State)
    requires ScriptInv(job, s) && SecondFetchStep(job, s, t)
    ensures ScriptInv(job, t)
  {
    var b :| b in s.ledger && t.trace == s.trace + [Fetched(b)] &&
             t == s.(at := if b.config == job.plan.original then Cleared(s.at.first, |s.trace|) else Failed, trace := s.trace + [Fetched(b)]);
    OtherEvent(job, s.trace, Fetched(b), s.began);
    if b.config == job.plan.original {
      PreflightedGrows(job, s.trace, t.trace, s.at.first, |s.trace|, |s.trace|, s.at.reference, |job.nodes|);
      assert ReviewedAt(job, t.trace, s.at.first) && ReviewedAt(job, t.trace, |s.trace|);
      assert ClearedBefore(job, t.trace, |t.trace|);
    }
    QuietStep(job, s, t, Fetched(b));
  }

  lemma TipKeepsInv(job: Input, s: State, t: State)
    requires ScriptInv(job, s) && TipStep(job, s, t)
    ensures ScriptInv(job, t)
  {
    var reference: nat :| t == s.(at := Preflight(s.at.first, reference, 0), trace := s.trace + [TipRead(reference)]);
    OtherEvent(job, s.trace, TipRead(reference), s.began);
    assert t.trace[|s.trace|] == TipRead(reference);
    assert ReviewedAt(job, t.trace, s.at.first);
    assert Preflighted(job, t.trace, s.at.first, |t.trace|, reference, 0);
    QuietStep(job, s, t, TipRead(reference));
  }

  lemma CheckBeforeKeepsInv(job: Input, s: State, t: State)
    requires ScriptInv(job, s) && CheckBeforeStep(job, s, t)
    ensures ScriptInv(job, t)
  {
    if t.at.Failed? {
      return;
    }
    var node, reference, k := job.nodes[s.at.checked], s.at.reference, s.at.checked;
    var e := Passed(true, node, s.nodes[node.name], reference);
    OtherEvent(job, s.trace, e, s.began);
    OneMorePassed(job, s.trace, e, s.at.first, reference, k);
    assert ReviewedAt(job, t.trace, s.at.first);
    QuietStep(job, s, t, e);
  }

  lemma OneMorePassed(job: Input, trace: seq<Event>, e: Event, lo: nat, reference: nat, count: nat)
    requires Preflighted(job, trace, lo, |trace|, reference, count) && count < |job.nodes|
    requires e.Passed? && e.before && e.node == job.nodes[count] && e.reference == reference
    requires Passes(true, e.node, e.state, reference)
    ensures Preflighted(job, trace + [e], lo, |trace| + 1, reference, count + 1)
  {
    var grown := trace + [e];
    var tip: nat :| lo < tip < |trace| && trace[tip] == TipRead(reference) &&
      forall k: nat :: k < count ==> PassedWithin(trace, tip, |trace|, true, job.nodes[k], reference);
    assert grown[tip] == trace[tip];
    forall k: nat | k < count + 1
      ensures PassedWithin(grown, tip, |grown|, true, job.nodes[k], reference)
    {
      if k < count {
        PassedWithinGrows(trace, grown, tip, |trace|, |grown|, true, job.nodes[k], reference);
      } else {
        assert PassedAt(grown, |trace|, true, job.nodes[k], reference);
      }
    }
  }

  lemma SubmissionRecorded(job: Input, trace: seq<Event>)
    requires SubmissionsOk(job, trace) && EnvelopesMatch(job) && ClearedBefore(job, trace, |trace|)
    ensures SubmissionsOk(job, trace + [Submitted(job.signed.update)])
  {
    var update, grown := job.signed.update, trace + [Submitted(job.signed.update)];
    forall i: nat, u | SubmittedAt(grown, i, u)
      ensures u == update && ClearedBefore(job, grown, i)
    {
      assert i < |trace| ==> SubmittedAt(trace, i, u);
      ClearedGrows(job, trace, grown, i);
    }
  }

  lemma InboxRecorded(inbox: set<ConfigUpdate>, trace: seq<Event>, update: ConfigUpdate)
    requires InboxOk(inbox, trace)
    ensures InboxOk(inbox + {update}, trace + [Submitted(update)])
  {
    var grown := trace + [Submitted(update)];
    assert SubmittedAt(grown, |trace|, update);
    forall u <- inbox
      ensures SubmittedWithin(grown, 0, |grown|, u)
    {
      SubmittedWithinGrows(trace, grown, 0, |trace|, |grown|, u);
    }
  }

  lemma PointAfterSubmit(job: Input, s: State, t: State)
    requires s.began <= |s.trace| && PointOk(job, s.at, s.began, s.trace) && SubmitStep(job, s, t)
    ensures PointOk(job, t.at, t.began, t.trace)
  {
    assert SubmittedAt(t.trace, |s.trace|, job.signed.update);
    assert SubmittedWithin(t.trace, s.began, |t.trace|, job.signed.update);
  }

  lemma SubmitKeepsInv(job: Input, s: State, t: State)
    requires ScriptInv(job, s) && SubmitStep(job, s, t)
    ensures ScriptInv(job, t)
  {
    SubmissionRecorded(job, s.trace);
    InboxRecorded(s.inbox, s.trace, job.signed.update);
    PointAfterSubmit(job, s, t);
    EvidenceGrows(job, s.trace, t.trace, s.evidence, s.shown);
  }

  lemma EvidenceGrows(job: Input, t: seq<Event>, u: seq<Event>, evidence: Option<Evidence>, shown: Attempt)
    requires t <= u && EvidenceOk(job, t, evidence, shown)
    ensures EvidenceOk(job, u, evidence, shown)
  {
    if evidence.Some? {
      ProvesGrows(job, t, u, evidence.value, shown);
    }
  }

  lemma OneMoreConfirmed(job: Input, trace: seq<Event>, e: Event, seen: nat, reference: nat, count: nat)
    requires ConfirmedSince(job, trace, seen, reference, count) && count < |job.nodes|
    requires e.Passed? && !e.before && e.node == job.nodes[count] && e.reference == reference
    requires Passes(false, e.node, e.state, reference)
    ensures ConfirmedSince(job, trace + [e], seen, reference, count + 1)
  {
    ConfirmedGrows(job, trace, trace + [e], seen, reference, count);
    assert PassedAt(trace + [e], |trace|, false, e.node, reference);
  }

  lemma CheckAfterKeepsInv(job: Input, s: State, t: State)
    requires ScriptInv(job, s) && CheckAfterStep(job, s, t)
    ensures ScriptInv(job, t)
  {
    if t.trace != s.trace {
      var e := t.trace[|s.trace|];
      OtherEvent(job, s.trace, e, s.began);
      SameSubmissions(s.trace, t.trace, s.began, s.at.seen, job.signed.update);
      OneMoreConfirmed(job, s.trace, e, s.at.seen, s.at.reference, s.at.checked);
      QuietStep(job, s, t, e);
    }
  }

  lemma PublishKeepsInv(job: Input, s: State, t: State)
    requires ScriptInv(job, s) && PublishStep(job, s, t)
    ensures ScriptInv(job, t)
  {
    assert Proves(job, t.trace, t.evidence.value, t.shown);
  }

  lemma ScriptKeepsInv(job: Input, s: State, t: State)
    requires ScriptInv(job, s) && ScriptStep(job, s, t)
    ensures ScriptInv(job, t)
  {
    if FirstFetchStep(job, s, t) {
      FirstFetchKeepsInv(job, s, t);
    } else if PollStep(job, s, t) {
      PollKeepsInv(job, s, t);
    } else if SecondFetchStep(job, s, t) {
      SecondFetchKeepsInv(job, s, t);
    } else if TipStep(job, s, t) {
      TipKeepsInv(job, s, t);
    } else if CheckBeforeStep(job, s, t) {
      CheckBeforeKeepsInv(job, s, t);
    } else if SubmitStep(job, s, t) {
      SubmitKeepsInv(job, s, t);
    } else if CheckAfterStep(job, s, t) {
      CheckAfterKeepsInv(job, s, t);
    } else if PublishStep(job, s, t) {
      PublishKeepsInv(job, s, t);
    } else {
      SilentKeepsInv(job, s, t);
    }
  }

  lemma SilentKeepsInv(job: Input, s: State, t: State)
    requires ScriptInv(job, s) && (VerifyStep(job, s, t) || CompareStep(job, s, t) || GiveUpStep(job, s, t) || RestartStep(job, s, t))
    ensures ScriptInv(job, t)
  {
  }
}
