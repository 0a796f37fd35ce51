/**
 Jobs and the result ConfigMaps they publish (internal/controller/fabricnetwork_enrollment.go,
 fabricnetwork_job_cleanup.go and the readiness functions of fabricnetwork_channel.go). A Job
 marked for cleanup may vanish after it succeeded, so only its result counts as evidence; an
 unmarked Job, created before results were published, counts by itself.
 */
module JobEvidence {
  import opened Wrappers
  import opened StringMaps

  const CleanupKey := "fabricops.io/succeeded-job-cleanup"

  datatype JobState = Running | Succeeded(completed: Option<int>) | Failed

  datatype Job = Job(uid: nat, labels: Strings, annotations: Strings, state: JobState)

  /** The operations of channel bootstrap that leave evidence. */
  datatype Item =
    | OrdererJoin(orderer: string)
    | PeerJoin(org: string, peer: string)
    | AnchorUpdate(org: string, peer: string)

  /** The names of Job and result: an organization's anchor updates share them, whatever the peer. */
  datatype Slot = OrdererSlot(orderer: string) | PeerSlot(org: string, peer: string) | AnchorSlot(org: string)

  function SlotOf(item: Item): Slot {
    match item
    case OrdererJoin(orderer) => OrdererSlot(orderer)
    case PeerJoin(org, peer) => PeerSlot(org, peer)
    case AnchorUpdate(org, _) => AnchorSlot(org)
  }

  datatype Evidence = Evidence(results: map<Slot, string>, jobs: map<Slot, Job>, nextUid: nat)

  predicate Eligible(job: Job) {
    At(job.annotations, CleanupKey) == "true"
  }

  // ------------------------------------------------------------------------------- readiness

  datatype Readiness = Readiness(ready: bool, message: string)

  /** `matches` is what ordererJoinResultChannelStatus, fieldsContain and anchorPeerUpdateResultMatches decide. */
  type Reader = (Item, string) -> bool

  function ResultReadiness(matches: Reader, item: Item, e: Evidence): Readiness {
    if SlotOf(item) !in e.results then Readiness(false, "")
    else if matches(item, e.results[SlotOf(item)]) then Readiness(true, "")
    else Readiness(false, "Waiting for a matching result")
  }

  function ItemReadiness(matches: Reader, item: Item, e: Evidence): Readiness {
    var result := ResultReadiness(matches, item, e);
    if result.ready || SlotOf(item) !in e.jobs then result.(message := "")
    else
      var job := e.jobs[SlotOf(item)];
      match job.state
      case Failed => Readiness(false, "Job failed")
      case Succeeded(_) =>
        if result.message != "" then result
        else if Eligible(job) then Readiness(false, "Waiting for result ConfigMap")
        else Readiness(true, "")
      case Running => Readiness(false, "")
  }

  predicate ResultReady(matches: Reader, item: Item, e: Evidence) {
    SlotOf(item) in e.results && matches(item, e.results[SlotOf(item)])
  }

  /** Durable evidence: a matching result, or a succeeded Job that cleanup never removes and no other result. */
  predicate Evident(matches: Reader, item: Item, e: Evidence) {
    ResultReady(matches, item, e) ||
    (SlotOf(item) !in e.results && SlotOf(item) in e.jobs && e.jobs[SlotOf(item)].state.Succeeded? &&
     !Eligible(e.jobs[SlotOf(item)]))
  }

  /** The readiness functions report exactly durable evidence. */
  lemma ReadyIffEvident(matches: Reader, item: Item, e: Evidence)
    ensures ItemReadiness(matches, item, e).ready <==> Evident(matches, item, e)
  {
  }

  /** A Job that ended without evidence: it failed, published something else, or has still to publish what cleanup will need. */
  predicate Stuck(matches: Reader, item: Item, e: Evidence) {
    !ResultReady(matches, item, e) && SlotOf(item) in e.jobs &&
    (e.jobs[SlotOf(item)].state.Failed? ||
     (e.jobs[SlotOf(item)].state.Succeeded? && (SlotOf(item) in e.results || Eligible(e.jobs[SlotOf(item)]))))
  }

  /** A reason is given exactly for a Job that has ended without evidence. */
  lemma MessageIffStuck(matches: Reader, item: Item, e: Evidence)
    ensures ItemReadiness(matches, item, e).message != "" <==> Stuck(matches, item, e)
  {
  }

  /** The item is evidenced, or its Job exists. */
  predicate Underway(matches: Reader, item: Item, e: Evidence) {
    ResultReady(matches, item, e) || SlotOf(item) in e.jobs
  }

  // ------------------------------------------------------------------------------ the objects

  /** ensureJob on an existing Job: the cleanup mark is never added later. */
  function Refreshed(job: Job, labels: Strings, annotations: Strings): Job {
    job.(labels := Merged(job.labels, labels),
         annotations := Merged(job.annotations, if Eligible(job) then annotations else annotations - {CleanupKey}))
  }

  function Ensured(e: Evidence, slot: Slot, labels: Strings, annotations: Strings): Evidence {
    if slot in e.jobs then e.(jobs := e.jobs[slot := Refreshed(e.jobs[slot], labels, annotations)])
    else e.(jobs := e.jobs[slot := Job(e.nextUid, labels, annotations, Running)], nextUid := e.nextUid + 1)
  }

  /** Builders either mark a Job for cleanup or say nothing about it. */
  predicate BuilderMarks(annotations: Strings) {
    CleanupKey in annotations ==> annotations[CleanupKey] == "true"
  }

  /** Whatever is desired later, the mark of an existing Job stays as it was at its creation. */
  lemma RefreshKeepsEligibility(job: Job, labels: Strings, annotations: Strings)
    requires BuilderMarks(annotations)
    ensures Eligible(Refreshed(job, labels, annotations)) <==> Eligible(job)
    ensures Refreshed(job, labels, annotations).state == job.state
  {
    MergedAt(job.annotations, if Eligible(job) then annotations else annotations - {CleanupKey}, CleanupKey);
  }

  /** Everything else that is desired is merged, and nothing else changes. */
  lemma RefreshMerges(job: Job, labels: Strings, annotations: Strings, key: string)
    ensures var after := Refreshed(job, labels, annotations);
            after.uid == job.uid && after.state == job.state &&
            At(after.labels, key) == (if key in labels then labels[key] else At(job.labels, key)) &&
            (key != CleanupKey ==>
              At(after.annotations, key) == (if key in annotations then annotations[key] else At(job.annotations, key)))
  {
    MergedAt(job.labels, labels, key);
    MergedAt(job.annotations, if Eligible(job) then annotations else annotations - {CleanupKey}, key);
  }

  /** The age test of the cleanup loop. */
  predicate Expired(job: Job, now: int, ttl: nat) {
    Eligible(job) && job.state.Succeeded? && job.state.completed.Some? && now - job.state.completed.value >= ttl
  }

  /** How long until the Job expires, for one that is going to. */
  predicate Pending(job: Job, now: int, ttl: nat) {
    Eligible(job) && job.state.Succeeded? && job.state.completed.Some? && now - job.state.completed.value < ttl
  }

  function Remaining(job: Job, now: int, ttl: nat): int
    requires Pending(job, now, ttl)
  {
    ttl - (now - job.state.completed.value)
  }

  /** `next` is the shortest remaining time among the first `count` listed Jobs, 0 if none is pending. */
  ghost predicate SoonestOf(listed: seq<Slot>, jobs: map<Slot, Job>, count: nat, now: int, ttl: nat, next: int)
    requires count <= |listed| && forall s <- listed :: s in jobs
  {
    (forall i: nat :: i < count && Pending(jobs[listed[i]], now, ttl) ==> 0 < next <= Remaining(jobs[listed[i]], now, ttl)) &&
    (next != 0 ==>
      exists i: nat :: i < count && Pending(jobs[listed[i]], now, ttl) && next == Remaining(jobs[listed[i]], now, ttl))
  }

  ghost function ExpiredSlots(listed: seq<Slot>, jobs: map<Slot, Job>, count: nat, now: int, ttl: nat): set<Slot>
    requires count <= |listed| && forall s <- listed :: s in jobs
  {
    set i: nat | i < count && Expired(jobs[listed[i]], now, ttl) :: listed[i]
  }

  class EvidenceStore {
    var results: map<Slot, string>
    var jobs: map<Slot, Job>
    var nextUid: nat

    ghost function Snapshot(): Evidence
      reads this
    {
      Evidence(results, jobs, nextUid)
    }

    method EnsureJob(slot: Slot, labels: Strings, annotations: Strings)
      modifies this`jobs, this`nextUid
      ensures Snapshot() == Ensured(old(Snapshot()), slot, labels, annotations)
    {
      if slot !in jobs {
        jobs, nextUid := jobs[slot := Job(nextUid, labels, annotations, Running)], nextUid + 1;
        return;
      }
      var existing := jobs[slot];
      var desired := annotations;
      if At(existing.annotations, CleanupKey) != "true" {
        desired := desired - {CleanupKey};
      }
      var merged, relabelled := MergeStringMap(Some(existing.labels), labels);
      var noted, annotated := MergeStringMap(Some(existing.annotations), desired);
      if relabelled || annotated {
        jobs := jobs[slot := existing.(labels := merged, annotations := noted)];
      } else {
        assert jobs[slot := existing] == jobs;
      }
    }

    /**
     cleanupSucceededJobs over one listing: exactly the marked Jobs that succeeded at least
     `ttl` ago are deleted, and the next cleanup is due when the first other marked one is.
     */
    method CleanupSucceededJobs(listed: seq<Slot>, now: int, ttl: nat) returns (next: int)
      requires forall s <- listed :: s in jobs
      modifies this`jobs
      ensures jobs == old(jobs) - ExpiredSlots(listed, old(jobs), |listed|, now, ttl)
      ensures SoonestOf(listed, old(jobs), |listed|, now, ttl, next)
    {
      ghost var before := jobs;
      var copies := jobs;
      next := 0;
      for i := 0 to |listed|
        invariant copies == before
        invariant jobs == before - ExpiredSlots(listed, before, i, now, ttl)
        invariant SoonestOf(listed, before, i, now, ttl, next)
      {
        var job := copies[listed[i]];
        OneMoreExpired(listed, before, i, now, ttl);
        if !Eligible(job) || !job.state.Succeeded? || job.state.completed.None? {
          continue;
        }
        var age := now - job.state.completed.value;
        if age < ttl {
          var remaining := ttl - age;
          if next == 0 || remaining < next {
            next := remaining;
          }
          continue;
        }
        jobs := jobs - {listed[i]};
      }
    }
  }

  lemma OneMoreExpired(listed: seq<Slot>, jobs: map<Slot, Job>, i: nat, now: int, ttl: nat)
    requires i < |listed| && forall s <- listed :: s in jobs
    ensures ExpiredSlots(listed, jobs, i + 1, now, ttl) ==
            ExpiredSlots(listed, jobs, i, now, ttl) + (if Expired(jobs[listed[i]], now, ttl) then {listed[i]} else {})
  {
  }
}
