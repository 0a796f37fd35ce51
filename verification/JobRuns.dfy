/**
 Cleanup of succeeded Jobs over whole runs: reconciles, Job progress, publishing of results
 and cleanup passes in any order.
 */
module JobRuns {
  import opened Wrappers
  import opened Runs
  import opened StringMaps
  import opened JobEvidence

  ghost predicate EnsureStep(e: Evidence, f: Evidence) {
    exists slot, labels, annotations :: BuilderMarks(annotations) && f == Ensured(e, slot, labels, annotations)
  }

  /** A running Job ends, once. */
  ghost predicate ProgressStep(e: Evidence, f: Evidence) {
    exists slot <- e.jobs, state: JobState :: e.jobs[slot].state == Running && state != Running &&
      f == e.(jobs := e.jobs[slot := e.jobs[slot].(state := state)])
  }

  /** The items of the spec during the run: of the anchor updates that share a slot, the one that is asked for. */
  type Spec = Item -> bool

  /** Only running Jobs publish, and what a result once showed of the spec is not taken back. */
  ghost predicate PublishStep(matches: Reader, spec: Spec, e: Evidence, f: Evidence) {
    exists slot, raw :: Publishes(matches, spec, e, f, slot, raw)
  }

  ghost predicate Publishes(matches: Reader, spec: Spec, e: Evidence, f: Evidence, slot: Slot, raw: string) {
    slot in e.jobs && e.jobs[slot].state == Running && f == e.(results := e.results[slot := raw]) &&
    forall item :: spec(item) && SlotOf(item) == slot && ResultReady(matches, item, e) ==> matches(item, raw)
  }

  ghost predicate CleanupStep(e: Evidence, f: Evidence) {
    exists listed: seq<Slot>, now, ttl: nat :: (forall s <- listed :: s in e.jobs) &&
      f == e.(jobs := e.jobs - ExpiredSlots(listed, e.jobs, |listed|, now, ttl))
  }

  ghost predicate Step(matches: Reader, spec: Spec, e: Evidence, f: Evidence) {
    EnsureStep(e, f) || ProgressStep(e, f) || PublishStep(matches, spec, e, f) || CleanupStep(e, f)
  }

  /** Every Job that ever existed has a smaller uid than the next one. */
  ghost predicate Fresh(e: Evidence) {
    forall slot <- e.jobs :: e.jobs[slot].uid < e.nextUid
  }

  ghost predicate Run(matches: Reader, spec: Spec, states: seq<Evidence>) {
    IsRun(states, e => Fresh(e), (e, f) => Step(matches, spec, e, f))
  }

  // --------------------------------------------------------------------- readiness never regresses

  ghost predicate NothingLost(matches: Reader, e: Evidence, f: Evidence) {
    forall item :: Evident(matches, item, e) ==> Evident(matches, item, f)
  }

  lemma EnsuredLosesNothing(matches: Reader, e: Evidence, slot: Slot, labels: Strings, annotations: Strings)
    requires BuilderMarks(annotations)
    ensures NothingLost(matches, e, Ensured(e, slot, labels, annotations))
  {
    if slot in e.jobs {
      RefreshKeepsEligibility(e.jobs[slot], labels, annotations);
    }
  }

  /** No evidence for an item of the spec is lost. */
  ghost predicate SpecKept(matches: Reader, spec: Spec, e: Evidence, f: Evidence) {
    forall item :: spec(item) && Evident(matches, item, e) ==> Evident(matches, item, f)
  }

  lemma StepKeepsSpec(matches: Reader, spec: Spec, e: Evidence, f: Evidence)
    requires Step(matches, spec, e, f)
    ensures SpecKept(matches, spec, e, f)
  {
    if EnsureStep(e, f) {
      var slot, labels, annotations :| BuilderMarks(annotations) && f == Ensured(e, slot, labels, annotations);
      EnsuredLosesNothing(matches, e, slot, labels, annotations);
    }
  }

  lemma StepStaysFresh(matches: Reader, spec: Spec, e: Evidence, f: Evidence)
    requires Fresh(e) && Step(matches, spec, e, f)
    ensures Fresh(f) && SameJobs(e, f)
  {
    if EnsureStep(e, f) {
      var slot, labels, annotations :| BuilderMarks(annotations) && f == Ensured(e, slot, labels, annotations);
      if slot in e.jobs {
        RefreshKeepsEligibility(e.jobs[slot], labels, annotations);
      }
    }
  }

  /** An orderer join, peer join or anchor update that was ready stays ready, whatever cleanup removes. */
  lemma ReadyStaysReady(matches: Reader, spec: Spec, states: seq<Evidence>, i: nat, j: nat, item: Item)
    requires Run(matches, spec, states) && i <= j < |states| && spec(item) && ItemReadiness(matches, item, states[i]).ready
    ensures ItemReadiness(matches, item, states[j]).ready
  {
    forall e, f | Step(matches, spec, e, f)
      ensures SpecKept(matches, spec, e, f)
    {
      StepKeepsSpec(matches, spec, e, f);
    }
    RelationHolds(states, e => Fresh(e), (e, f) => Step(matches, spec, e, f), e => true,
                  (e, f) => SpecKept(matches, spec, e, f), i, j);
    ReadyIffEvident(matches, item, states[i]);
    ReadyIffEvident(matches, item, states[j]);
  }

  // ------------------------------------------------------- eligibility is fixed at creation

  /** Every Job of `f` that existed when `e` did is a Job of `e`, with the same mark. */
  ghost predicate SameJobs(e: Evidence, f: Evidence) {
    e.nextUid <= f.nextUid &&
    forall slot <- f.jobs :: f.jobs[slot].uid < e.nextUid ==>
      slot in e.jobs && e.jobs[slot].uid == f.jobs[slot].uid && (Eligible(e.jobs[slot]) <==> Eligible(f.jobs[slot]))
  }

  lemma EligibilityIsFixedAtCreation(matches: Reader, spec: Spec, states: seq<Evidence>, i: nat, j: nat, slot: Slot)
    requires Run(matches, spec, states) && i <= j < |states| && slot in states[i].jobs && slot in states[j].jobs
    requires states[i].jobs[slot].uid == states[j].jobs[slot].uid
    ensures Eligible(states[i].jobs[slot]) <==> Eligible(states[j].jobs[slot])
  {
    forall e, f | Fresh(e) && Step(matches, spec, e, f)
      ensures Fresh(f) && SameJobs(e, f)
    {
      StepStaysFresh(matches, spec, e, f);
    }
    forall e
      ensures SameJobs(e, e)
    {
    }
    RelationHolds(states, e => Fresh(e), (e, f) => Step(matches, spec, e, f), e => Fresh(e), (e, f) => SameJobs(e, f), i, j);
  }

  /** What cleanup removes had been marked at its creation and had succeeded. */
  lemma CleanupRemovesOnlyMarked(matches: Reader, spec: Spec, e: Evidence, f: Evidence, slot: Slot)
    requires Step(matches, spec, e, f) && slot in e.jobs && slot !in f.jobs
    ensures Eligible(e.jobs[slot]) && e.jobs[slot].state.Succeeded?
  {
  }
}
