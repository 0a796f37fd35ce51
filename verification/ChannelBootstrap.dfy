/**
 Bootstrap of one channel (reconcileChannels and its stages in
 internal/controller/fabricnetwork_channel.go, reconcileLocalOrgAdditions in
 fabricnetwork_local_org.go): orderer joins, admission of late organizations, peer joins,
 anchor updates, external organizations and the Raft update, each stage gated by the one before.
 */
module ChannelBootstrap {
  import opened Wrappers
  import opened StringMaps
  import opened JobEvidence
  import opened JobRuns
  import opened ChannelAdmission
  import Consenters
  import Whitespace
  import RaftReconcile
  import RaftReady

  datatype ChannelOrg = ChannelOrg(name: string, msp: string, peers: seq<string>, signedRef: Option<Reference>, signedRead: Read)

  /** The labels and annotations that the Job builders use. */
  datatype JobMeta = JobMeta(labels: Strings, annotations: Strings)

  predicate EvidentAll(matches: Reader, items: seq<Item>, e: Evidence) {
    forall i :: 0 <= i < |items| ==> Evident(matches, items[i], e)
  }

  function OrdererItems(orderers: seq<string>): (items: seq<Item>)
    ensures |items| == |orderers|
  {
    seq(|orderers|, i requires 0 <= i < |orderers| => OrdererJoin(orderers[i]))
  }

  function PeerItems(org: ChannelOrg): (items: seq<Item>)
    ensures |items| == |org.peers|
  {
    seq(|org.peers|, i requires 0 <= i < |org.peers| => PeerJoin(org.name, org.peers[i]))
  }

  /** Results are untouched, no evidence was lost, every Job keeps its progress and its mark, and new ones run. */
  ghost predicate Extends(matches: Reader, before: Evidence, after: Evidence) {
    after.results == before.results && NothingLost(matches, before, after) &&
    (forall slot <- before.jobs :: slot in after.jobs && SameProgress(before.jobs[slot], after.jobs[slot])) &&
    forall slot <- after.jobs :: slot in before.jobs || after.jobs[slot].state.Running?
  }

  ghost predicate SameProgress(job: Job, after: Job) {
    after.uid == job.uid && after.state == job.state && (Eligible(after) <==> Eligible(job))
  }

  lemma ExtendsTransitive(matches: Reader, a: Evidence, b: Evidence, c: Evidence)
    requires Extends(matches, a, b) && Extends(matches, b, c)
    ensures Extends(matches, a, c)
  {
  }

  lemma StuckAsBefore(matches: Reader, item: Item, before: Evidence, after: Evidence)
    requires Extends(matches, before, after)
    ensures Stuck(matches, item, after) <==> Stuck(matches, item, before)
    ensures Underway(matches, item, before) ==> Underway(matches, item, after)
  {
  }

  lemma EnsuredExtends(matches: Reader, e: Evidence, slot: Slot, meta: JobMeta)
    requires BuilderMarks(meta.annotations)
    ensures Extends(matches, e, Ensured(e, slot, meta.labels, meta.annotations))
  {
    EnsuredLosesNothing(matches, e, slot, meta.labels, meta.annotations);
    if slot in e.jobs {
      RefreshKeepsEligibility(e.jobs[slot], meta.labels, meta.annotations);
    }
  }

  // --------------------------------------------------------------------------------- one item

  /** The body that the three loops share: look for a result, ensure the Job, look again. */
  method Attempt(store: EvidenceStore, matches: Reader, item: Item, meta: JobMeta) returns (done: bool, message: string)
    requires BuilderMarks(meta.annotations)
    modifies store`jobs, store`nextUid
    ensures Extends(matches, old(store.Snapshot()), store.Snapshot())
    ensures done ==> message == "" && Evident(matches, item, store.Snapshot())
    ensures Evident(matches, item, old(store.Snapshot())) ==> done
    ensures message != "" <==> Stuck(matches, item, old(store.Snapshot()))
    ensures ResultReady(matches, item, store.Snapshot()) || SlotOf(item) in store.jobs
    ensures forall slot :: slot in store.jobs && slot !in old(store.jobs) ==> slot == SlotOf(item)
    ensures ResultReady(matches, item, old(store.Snapshot())) ==> store.Snapshot() == old(store.Snapshot())
    ensures !ResultReady(matches, item, old(store.Snapshot())) ==>
              store.Snapshot() == Ensured(old(store.Snapshot()), SlotOf(item), meta.labels, meta.annotations)
  {
    NothingLostReflexive(matches, store.Snapshot());
    var result := ResultReadiness(matches, item, Evidence(store.results, store.jobs, store.nextUid));
    if result.ready {
      return true, "";
    }
    EnsuredExtends(matches, store.Snapshot(), SlotOf(item), meta);
    store.EnsureJob(SlotOf(item), meta.labels, meta.annotations);
    var readiness := ItemReadiness(matches, item, Evidence(store.results, store.jobs, store.nextUid));
    ReadyIffEvident(matches, item, store.Snapshot());
    MessageIffStuck(matches, item, store.Snapshot());
    StuckAsBefore(matches, item, old(store.Snapshot()), store.Snapshot());
    return readiness.ready && readiness.message == "", readiness.message;
  }

  lemma EvidentAllExtends(matches: Reader, items: seq<Item>, before: Evidence, after: Evidence)
    requires EvidentAll(matches, items, before) && Extends(matches, before, after)
    ensures EvidentAll(matches, items, after)
  {
  }

  ghost predicate NoneStuck(matches: Reader, items: seq<Item>, e: Evidence) {
    forall k :: 0 <= k < |items| ==> !Stuck(matches, items[k], e)
  }

  /** Every new Job is that of one of the items. */
  ghost predicate OnlyFor(items: seq<Item>, before: map<Slot, Job>, after: map<Slot, Job>) {
    forall slot :: slot in after && slot !in before ==> exists item <- items :: slot == SlotOf(item)
  }

  lemma OnlyForOne(items: seq<Item>, i: nat, start: map<Slot, Job>, before: map<Slot, Job>, after: map<Slot, Job>)
    requires i < |items| && OnlyFor(items, start, before)
    requires forall slot :: slot in after && slot !in before ==> slot == SlotOf(items[i])
    ensures OnlyFor(items, start, after)
  {
    assert items[i] in items;
  }

  /** Every item up to the first stuck one has its evidence or its Job. */
  ghost predicate StartedUpTo(matches: Reader, items: seq<Item>, before: Evidence, after: Evidence) {
    forall k :: 0 <= k < |items| && (forall j :: 0 <= j < k ==> !Stuck(matches, items[j], before)) ==>
      Underway(matches, items[k], after)
  }

  /**
   A loop over items, as reconcileOrdererJoins and the inner loop of reconcilePeerJoins run it.
   It stops with a message exactly if some item's Job has ended without evidence, and leaves a
   result or a Job for every item up to that one.
   */
  method JoinAll(store: EvidenceStore, matches: Reader, items: seq<Item>, meta: JobMeta) returns (ready: nat, message: string)
    requires BuilderMarks(meta.annotations)
    modifies store`jobs, store`nextUid
    ensures Extends(matches, old(store.Snapshot()), store.Snapshot())
    ensures ready <= |items|
    ensures message == "" && ready == |items| ==> EvidentAll(matches, items, store.Snapshot())
    ensures EvidentAll(matches, items, old(store.Snapshot())) ==> message == "" && ready == |items|
    ensures OnlyFor(items, old(store.jobs), store.jobs)
    ensures message == "" <==> NoneStuck(matches, items, old(store.Snapshot()))
    ensures StartedUpTo(matches, items, old(store.Snapshot()), store.Snapshot())
  {
    ready, message := 0, "";
    NothingLostReflexive(matches, store.Snapshot());
    for i := 0 to |items|
      invariant message == "" && Extends(matches, old(store.Snapshot()), store.Snapshot())
      invariant Attempted(matches, items, i, ready, old(store.Snapshot()), store.Snapshot())
      invariant OnlyFor(items, old(store.jobs), store.jobs)
    {
      ghost var before := store.Snapshot();
      var done: bool;
      done, message := Attempt(store, matches, items[i], meta);
      JoinedOne(matches, items, i, ready, done, old(store.Snapshot()), before, store.Snapshot());
      OnlyForOne(items, i, old(store.jobs), before.jobs, store.jobs);
      if message != "" {
        return;
      }
      if done {
        ready := ready + 1;
      }
    }
  }

  /** The state of the loop before item `i`. */
  ghost predicate Attempted(matches: Reader, items: seq<Item>, i: nat, ready: nat, start: Evidence, e: Evidence) {
    ready <= i <= |items| && (ready == i ==> forall k :: 0 <= k < i ==> Evident(matches, items[k], e)) &&
    (EvidentAll(matches, items, start) ==> ready == i) &&
    forall k :: 0 <= k < i ==> !Stuck(matches, items[k], start) && Underway(matches, items[k], e)
  }

  lemma AttemptedStays(
    matches: Reader, items: seq<Item>, i: nat, ready: nat, start: Evidence, before: Evidence, after: Evidence)
    requires Attempted(matches, items, i, ready, start, before) && Extends(matches, before, after)
    ensures Attempted(matches, items, i, ready, start, after)
  {
    forall k | 0 <= k < i
      ensures Underway(matches, items[k], before) ==> Underway(matches, items[k], after)
      ensures Evident(matches, items[k], before) ==> Evident(matches, items[k], after)
    {
      StuckAsBefore(matches, items[k], before, after);
    }
  }

  lemma AttemptedOne(matches: Reader, items: seq<Item>, i: nat, ready: nat, done: bool, start: Evidence, e: Evidence)
    requires i < |items| && Attempted(matches, items, i, ready, start, e) && Underway(matches, items[i], e)
    requires done ==> Evident(matches, items[i], e)
    requires Evident(matches, items[i], start) ==> done
    requires !Stuck(matches, items[i], start)
    ensures Attempted(matches, items, i + 1, if done then ready + 1 else ready, start, e)
  {
  }

  lemma JoinedOne(
    matches: Reader, items: seq<Item>, i: nat, ready: nat, done: bool, start: Evidence, before: Evidence, after: Evidence)
    requires i < |items| && Attempted(matches, items, i, ready, start, before)
    requires Extends(matches, start, before) && Extends(matches, before, after)
    requires done ==> Evident(matches, items[i], after)
    requires Evident(matches, items[i], before) ==> done
    requires Underway(matches, items[i], after)
    ensures Extends(matches, start, after) && (Stuck(matches, items[i], before) <==> Stuck(matches, items[i], start))
    ensures !Stuck(matches, items[i], before) ==> Attempted(matches, items, i + 1, if done then ready + 1 else ready, start, after)
    ensures Stuck(matches, items[i], before) ==>
              StartedUpTo(matches, items, start, after) && !NoneStuck(matches, items, start) && !EvidentAll(matches, items, start)
  {
    ExtendsTransitive(matches, start, before, after);
    StuckAsBefore(matches, items[i], start, before);
    AttemptedStays(matches, items, i, ready, start, before, after);
    if Stuck(matches, items[i], before) {
      StoppedAt(matches, items, i, start, after);
    } else {
      AttemptedOne(matches, items, i, ready, done, start, after);
    }
  }

  /** The loop stops at the first stuck item, which is not evident. */
  lemma StoppedAt(matches: Reader, items: seq<Item>, i: nat, start: Evidence, e: Evidence)
    requires i < |items| && Stuck(matches, items[i], start) && forall k :: 0 <= k <= i ==> Underway(matches, items[k], e)
    ensures StartedUpTo(matches, items, start, e) && !NoneStuck(matches, items, start) && !EvidentAll(matches, items, start)
  {
    assert !Evident(matches, items[i], start);
  }

  // ------------------------------------------------------------------------------------ peers

  function PeerTotal(orgs: seq<ChannelOrg>): nat {
    if orgs == [] then 0 else PeerTotal(orgs[..|orgs| - 1]) + |orgs[|orgs| - 1].peers|
  }

  predicate PeersEvident(matches: Reader, orgs: seq<ChannelOrg>, e: Evidence) {
    forall i :: 0 <= i < |orgs| ==> EvidentAll(matches, PeerItems(orgs[i]), e)
  }

  /** `ready` counts one organization after the other; the counts add up only if each is complete. */
  ghost predicate Counted(matches: Reader, orgs: seq<ChannelOrg>, ready: nat, counts: seq<nat>, e: Evidence) {
    |counts| == |orgs| && ready <= PeerTotal(orgs) && (forall i :: 0 <= i < |orgs| ==> counts[i] <= |orgs[i].peers|) &&
    (ready == PeerTotal(orgs) ==>
      PeersEvident(matches, orgs, e) && forall i :: 0 <= i < |orgs| ==> counts[i] == |orgs[i].peers|)
  }

  lemma CountOneMore(
    matches: Reader, orgs: seq<ChannelOrg>, i: nat, ready: nat, counts: seq<nat>, count: nat, before: Evidence, after: Evidence)
    requires i < |orgs| && Counted(matches, orgs[..i], ready, counts, before) && Extends(matches, before, after)
    requires count <= |orgs[i].peers| && (count == |orgs[i].peers| ==> EvidentAll(matches, PeerItems(orgs[i]), after))
    ensures Counted(matches, orgs[..i + 1], ready + count, counts + [count], after)
  {
    var prefix, longer := orgs[..i], orgs[..i + 1];
    assert longer[..|longer| - 1] == prefix && longer[i] == orgs[i];
    if ready == PeerTotal(prefix) {
      forall k | 0 <= k < i
        ensures EvidentAll(matches, PeerItems(orgs[k]), after)
      {
        assert prefix[k] == orgs[k];
        EvidentAllExtends(matches, PeerItems(orgs[k]), before, after);
      }
    }
  }

  /** Organization by organization, every peer up to the first stuck one has its evidence or its Job. */
  ghost predicate PeersStarted(matches: Reader, orgs: seq<ChannelOrg>, known: set<string>, before: Evidence, after: Evidence) {
    forall i: nat :: i < |orgs| && orgs[i].name in known && ClearBefore(matches, orgs, known, i, before) ==>
      StartedUpTo(matches, PeerItems(orgs[i]), before, after)
  }

  /** No peer of the organizations before `i` is stuck. */
  ghost predicate ClearBefore(matches: Reader, orgs: seq<ChannelOrg>, known: set<string>, i: nat, e: Evidence)
    requires i <= |orgs|
  {
    forall j :: 0 <= j < i && orgs[j].name in known ==> NoneStuck(matches, PeerItems(orgs[j]), e)
  }

  /** The state of the loop before organization `i`. */
  ghost predicate PeersAttempted(
    matches: Reader, orgs: seq<ChannelOrg>, known: set<string>, i: nat, ready: nat, counts: seq<nat>, start: Evidence, e: Evidence)
  {
    i <= |orgs| && Extends(matches, start, e) && Counted(matches, orgs[..i], ready, counts, e) &&
    ((forall o <- orgs :: o.name in known) && PeersEvident(matches, orgs, start) ==> ready == PeerTotal(orgs[..i])) &&
    forall j :: 0 <= j < i && orgs[j].name in known ==>
      NoneStuck(matches, PeerItems(orgs[j]), start) && StartedUpTo(matches, PeerItems(orgs[j]), start, e)
  }

  lemma StartedLater(matches: Reader, items: seq<Item>, start: Evidence, before: Evidence, after: Evidence)
    requires Extends(matches, start, before) && Extends(matches, before, after)
    ensures NoneStuck(matches, items, start) <==> NoneStuck(matches, items, before)
    ensures StartedUpTo(matches, items, before, after) ==> StartedUpTo(matches, items, start, after)
    ensures StartedUpTo(matches, items, start, before) ==> StartedUpTo(matches, items, start, after)
  {
    forall k | 0 <= k < |items|
      ensures Stuck(matches, items[k], start) <==> Stuck(matches, items[k], before)
      ensures Underway(matches, items[k], before) ==> Underway(matches, items[k], after)
    {
      StuckAsBefore(matches, items[k], start, before);
      StuckAsBefore(matches, items[k], before, after);
    }
  }

  /** An organization that the network does not declare adds nothing. */
  lemma PassedOver(
    matches: Reader, orgs: seq<ChannelOrg>, known: set<string>, i: nat, ready: nat, counts: seq<nat>, start: Evidence, e: Evidence)
    requires i < |orgs| && PeersAttempted(matches, orgs, known, i, ready, counts, start, e) && orgs[i].name !in known
    ensures PeersAttempted(matches, orgs, known, i + 1, ready, counts + [0], start, e)
  {
    NothingLostReflexive(matches, e);
    CountOneMore(matches, orgs, i, ready, counts, 0, e, e);
  }

  lemma PeersJoinedOne(
    matches: Reader, orgs: seq<ChannelOrg>, known: set<string>, i: nat, ready: nat, counts: seq<nat>, count: nat,
    start: Evidence, before: Evidence, after: Evidence)
    requires i < |orgs| && PeersAttempted(matches, orgs, known, i, ready, counts, start, before) && orgs[i].name in known
    requires Extends(matches, before, after) && NoneStuck(matches, PeerItems(orgs[i]), before)
    requires StartedUpTo(matches, PeerItems(orgs[i]), before, after) && count <= |orgs[i].peers|
    requires count == |orgs[i].peers| ==> EvidentAll(matches, PeerItems(orgs[i]), after)
    requires EvidentAll(matches, PeerItems(orgs[i]), before) ==> count == |orgs[i].peers|
    ensures PeersAttempted(matches, orgs, known, i + 1, ready + count, counts + [count], start, after)
  {
    ExtendsTransitive(matches, start, before, after);
    CountOneMore(matches, orgs, i, ready, counts, count, before, after);
    PeerTotalNext(orgs, i);
    EarlierStarted(matches, orgs, known, i, ready, counts, start, before, after);
    StartedLater(matches, PeerItems(orgs[i]), start, before, after);
    if EvidentAll(matches, PeerItems(orgs[i]), start) {
      EvidentAllExtends(matches, PeerItems(orgs[i]), start, before);
    }
  }

  lemma EarlierStarted(
    matches: Reader, orgs: seq<ChannelOrg>, known: set<string>, i: nat, ready: nat, counts: seq<nat>,
    start: Evidence, before: Evidence, after: Evidence)
    requires i < |orgs| && PeersAttempted(matches, orgs, known, i, ready, counts, start, before)
    requires Extends(matches, before, after)
    ensures forall j :: 0 <= j < i && orgs[j].name in known ==>
      NoneStuck(matches, PeerItems(orgs[j]), start) && StartedUpTo(matches, PeerItems(orgs[j]), start, after)
  {
    forall j | 0 <= j < i && orgs[j].name in known
      ensures StartedUpTo(matches, PeerItems(orgs[j]), start, after)
    {
      StartedLater(matches, PeerItems(orgs[j]), start, before, after);
    }
  }

  /** The loop stops at an organization with a stuck peer: the earlier ones and its own peers up to that one are started. */
  lemma PeersStopped(
    matches: Reader, orgs: seq<ChannelOrg>, known: set<string>, i: nat, ready: nat, counts: seq<nat>,
    start: Evidence, before: Evidence, after: Evidence)
    requires i < |orgs| && PeersAttempted(matches, orgs, known, i, ready, counts, start, before) && orgs[i].name in known
    requires Extends(matches, before, after) && !NoneStuck(matches, PeerItems(orgs[i]), before)
    requires StartedUpTo(matches, PeerItems(orgs[i]), before, after)
    ensures Extends(matches, start, after) && PeersStarted(matches, orgs, known, start, after)
    ensures !PeersEvident(matches, orgs, start)
  {
    ExtendsTransitive(matches, start, before, after);
    EarlierStarted(matches, orgs, known, i, ready, counts, start, before, after);
    StartedLater(matches, PeerItems(orgs[i]), start, before, after);
    NoneClearBeyond(matches, orgs, known, i, start, after);
    if EvidentAll(matches, PeerItems(orgs[i]), start) {
      EvidentIsNotStuck(matches, PeerItems(orgs[i]), start);
    }
  }

  lemma NoneClearBeyond(matches: Reader, orgs: seq<ChannelOrg>, known: set<string>, i: nat, start: Evidence, after: Evidence)
    requires i < |orgs| && orgs[i].name in known && !NoneStuck(matches, PeerItems(orgs[i]), start)
    requires forall j :: 0 <= j <= i && orgs[j].name in known ==> StartedUpTo(matches, PeerItems(orgs[j]), start, after)
    ensures PeersStarted(matches, orgs, known, start, after)
  {
  }

  lemma EvidentIsNotStuck(matches: Reader, items: seq<Item>, e: Evidence)
    requires EvidentAll(matches, items, e)
    ensures NoneStuck(matches, items, e)
  {
  }

  /**
   reconcilePeerJoins: without a message, every listed peer has joined with durable evidence;
   and whatever it says, every peer up to the first stuck one has its evidence or its Job.
   */
  method ReconcilePeerJoins(store: EvidenceStore, matches: Reader, orgs: seq<ChannelOrg>, known: set<string>, meta: JobMeta)
    returns (ready: nat, counts: seq<nat>, message: string)
    requires BuilderMarks(meta.annotations)
    modifies store`jobs, store`nextUid
    ensures Extends(matches, old(store.Snapshot()), store.Snapshot())
    ensures message == "" ==> ready == PeerTotal(orgs) && PeersEvident(matches, orgs, store.Snapshot())
    ensures message == "" ==> |counts| == |orgs| && forall i :: 0 <= i < |orgs| ==> counts[i] == |orgs[i].peers|
    ensures (forall o <- orgs :: o.name in known) && PeersEvident(matches, orgs, old(store.Snapshot())) ==> message == ""
    ensures PeersStarted(matches, orgs, known, old(store.Snapshot()), store.Snapshot())
  {
    ready, counts, message := 0, [], "";
    NothingLostReflexive(matches, store.Snapshot());
    assert orgs[..0] == [];
    for i := 0 to |orgs|
      invariant PeersAttempted(matches, orgs, known, i, ready, counts, old(store.Snapshot()), store.Snapshot())
    {
      ghost var before := store.Snapshot();
      if orgs[i].name !in known {
        PassedOver(matches, orgs, known, i, ready, counts, old(store.Snapshot()), before);
        counts := counts + [0];
        continue;
      }
      var orgReady, waiting := JoinAll(store, matches, PeerItems(orgs[i]), meta);
      if waiting != "" {
        PeersStopped(matches, orgs, known, i, ready, counts, old(store.Snapshot()), before, store.Snapshot());
        return ready + orgReady, counts + [orgReady], waiting;
      }
      PeersJoinedOne(matches, orgs, known, i, ready, counts, orgReady, old(store.Snapshot()), before, store.Snapshot());
      ready, counts := ready + orgReady, counts + [orgReady];
    }
    assert orgs[..|orgs|] == orgs;
    if ready < PeerTotal(orgs) {
      message := "Waiting for peer join Jobs";
    }
  }

  lemma PeerTotalNext(orgs: seq<ChannelOrg>, i: nat)
    requires i < |orgs|
    ensures PeerTotal(orgs[..i + 1]) == PeerTotal(orgs[..i]) + |orgs[i].peers|
  {
    assert orgs[..i + 1][..i] == orgs[..i];
  }

  lemma NothingLostReflexive(matches: Reader, e: Evidence)
    ensures Extends(matches, e, e)
  {
  }

  // ---------------------------------------------------------------------------------- anchors

  /** channelAnchorPeerForOrg: the first peer of the last listing of the organization that has peers. */
  function AnchorOf(orgs: seq<ChannelOrg>, name: string): Option<string> {
    if orgs == [] then None
    else
      var last := orgs[|orgs| - 1];
      if last.name == name && last.peers != [] then Some(last.peers[0]) else AnchorOf(orgs[..|orgs| - 1], name)
  }

  predicate AnchorEvident(matches: Reader, orgs: seq<ChannelOrg>, name: string, e: Evidence) {
    AnchorOf(orgs, name).Some? && Evident(matches, AnchorUpdate(name, AnchorOf(orgs, name).value), e)
  }

  lemma {:induction false} ListedHasAnchor(orgs: seq<ChannelOrg>, i: nat)
    requires i < |orgs| && orgs[i].peers != []
    ensures AnchorOf(orgs, orgs[i].name).Some?
  {
    if i < |orgs| - 1 {
      ListedHasAnchor(orgs[..|orgs| - 1], i);
    }
  }

  /** What AnchorOf picks, said by positions. */
  lemma {:induction false} AnchorIsFirstPeer(orgs: seq<ChannelOrg>, i: nat)
    requires i < |orgs| && orgs[i].peers != []
    requires forall j :: i < j < |orgs| && orgs[j].name == orgs[i].name ==> orgs[j].peers == []
    ensures AnchorOf(orgs, orgs[i].name) == Some(orgs[i].peers[0])
  {
    if i < |orgs| - 1 {
      AnchorIsFirstPeer(orgs[..|orgs| - 1], i);
    }
  }

  /** Every listed peer of a declared organization has joined. */
  predicate Complete(orgs: seq<ChannelOrg>, counts: seq<nat>, known: set<string>, i: nat)
    requires i < |orgs| == |counts|
  {
    orgs[i].name in known && counts[i] >= |orgs[i].peers| > 0
  }

  predicate AnchorStarted(matches: Reader, orgs: seq<ChannelOrg>, name: string, e: Evidence) {
    AnchorOf(orgs, name).Some? && Underway(matches, AnchorUpdate(name, AnchorOf(orgs, name).value), e)
  }

  /** Every complete organization up to the first without anchor evidence has its evidence or its Job. */
  ghost predicate AnchorsStarted(
    matches: Reader, orgs: seq<ChannelOrg>, counts: seq<nat>, known: set<string>, before: Evidence, after: Evidence)
    requires |counts| == |orgs|
  {
    forall i: nat :: i < |orgs| && Complete(orgs, counts, known, i) && AnchoredBefore(matches, orgs, counts, known, i, before) ==>
      AnchorStarted(matches, orgs, orgs[i].name, after)
  }

  ghost predicate AnchoredBefore(
    matches: Reader, orgs: seq<ChannelOrg>, counts: seq<nat>, known: set<string>, i: nat, e: Evidence)
    requires i <= |orgs| == |counts|
  {
    forall j: nat :: j < i && Complete(orgs, counts, known, j) ==> AnchorEvident(matches, orgs, orgs[j].name, e)
  }

  lemma AnchorsStopped(
    matches: Reader, orgs: seq<ChannelOrg>, counts: seq<nat>, known: set<string>, i: nat, before: Evidence, after: Evidence)
    requires i < |orgs| == |counts| && Complete(orgs, counts, known, i) && !AnchorEvident(matches, orgs, orgs[i].name, before)
    requires forall j: nat :: j <= i && Complete(orgs, counts, known, j) ==> AnchorStarted(matches, orgs, orgs[j].name, after)
    ensures AnchorsStarted(matches, orgs, counts, known, before, after)
  {
  }

  /** The state of the loop before organization `i`: all complete ones so far have their anchor. */
  ghost predicate AnchorsAttempted(
    matches: Reader, orgs: seq<ChannelOrg>, counts: seq<nat>, known: set<string>, i: nat, start: Evidence, e: Evidence)
    requires |counts| == |orgs|
  {
    i <= |orgs| && Extends(matches, start, e) && AnchoredBefore(matches, orgs, counts, known, i, e) &&
    forall j: nat :: j < i && Complete(orgs, counts, known, j) ==> AnchorStarted(matches, orgs, orgs[j].name, e)
  }

  lemma AnchorAttempted(
    matches: Reader, orgs: seq<ChannelOrg>, counts: seq<nat>, known: set<string>, i: nat, start: Evidence, before: Evidence,
    after: Evidence, done: bool)
    requires |counts| == |orgs| && i < |orgs| && AnchorsAttempted(matches, orgs, counts, known, i, start, before)
    requires Complete(orgs, counts, known, i) && Extends(matches, before, after)
    requires AnchorOf(orgs, orgs[i].name).Some? && AnchorStarted(matches, orgs, orgs[i].name, after)
    requires done ==> AnchorEvident(matches, orgs, orgs[i].name, after)
    requires AnchorEvident(matches, orgs, orgs[i].name, before) ==> done
    ensures Extends(matches, start, after)
    ensures done ==> AnchorsAttempted(matches, orgs, counts, known, i + 1, start, after)
    ensures !done ==> AnchorsStarted(matches, orgs, counts, known, start, after) &&
                      !AnchorEvident(matches, orgs, orgs[i].name, start)
  {
    ExtendsTransitive(matches, start, before, after);
    forall j: nat | j < i && Complete(orgs, counts, known, j)
      ensures AnchorStarted(matches, orgs, orgs[j].name, after) && AnchorEvident(matches, orgs, orgs[j].name, after)
    {
      StuckAsBefore(matches, AnchorUpdate(orgs[j].name, AnchorOf(orgs, orgs[j].name).value), before, after);
    }
    if !done {
      AnchorsStopped(matches, orgs, counts, known, i, start, after);
    }
  }

  /**
   reconcileAnchorPeerUpdates: without a message, every complete organization has its anchor;
   in any case those up to the first without evidence have their evidence or their Job.
   */
  method ReconcileAnchorPeerUpdates(
    store: EvidenceStore, matches: Reader, orgs: seq<ChannelOrg>, counts: seq<nat>, known: set<string>, meta: JobMeta)
    returns (message: string)
    requires BuilderMarks(meta.annotations) && |counts| == |orgs|
    modifies store`jobs, store`nextUid
    ensures Extends(matches, old(store.Snapshot()), store.Snapshot())
    ensures message == "" ==> forall i: nat :: i < |orgs| && orgs[i].name in known && counts[i] >= |orgs[i].peers| > 0 ==>
              AnchorEvident(matches, orgs, orgs[i].name, store.Snapshot())
    ensures (forall o <- orgs :: AnchorEvident(matches, orgs, o.name, old(store.Snapshot()))) ==> message == ""
    ensures AnchorsStarted(matches, orgs, counts, known, old(store.Snapshot()), store.Snapshot())
  {
    message := "";
    NothingLostReflexive(matches, store.Snapshot());
    for i := 0 to |orgs|
      invariant message == "" && AnchorsAttempted(matches, orgs, counts, known, i, old(store.Snapshot()), store.Snapshot())
    {
      if counts[i] < |orgs[i].peers| || |orgs[i].peers| == 0 || orgs[i].name !in known {
        assert !Complete(orgs, counts, known, i);
        continue;
      }
      ListedHasAnchor(orgs, i);
      ghost var before := store.Snapshot();
      var item := AnchorUpdate(orgs[i].name, AnchorOf(orgs, orgs[i].name).value);
      var done: bool;
      done, message := Attempt(store, matches, item, meta);
      AnchorAttempted(matches, orgs, counts, known, i, old(store.Snapshot()), before, store.Snapshot(), done);
      if message == "" && !done {
        message := "Waiting for anchor peer update Jobs";
      }
      if message != "" {
        return;
      }
    }
  }

  // ------------------------------------------------------------------------- the local-org gate

  /** Some listed peer of the organization is recorded as its anchor. */
  predicate Anchored(matches: Reader, org: ChannelOrg, e: Evidence) {
    exists p <- org.peers :: ResultReady(matches, AnchorUpdate(org.name, p), e)
  }

  predicate AllAnchored(matches: Reader, orgs: seq<ChannelOrg>, e: Evidence) {
    forall i :: 0 <= i < |orgs| ==> Anchored(matches, orgs[i], e)
  }

  /**
   The gate: on a channel where no organization is anchored yet everyone may join; otherwise
   every listed organization has to be anchored or admitted.
   */
  ghost predicate GateOpen(
    matches: Reader, channel: string, orgs: seq<ChannelOrg>, known: set<string>, e: Evidence,
    admitted: Results)
  {
    (forall i :: 0 <= i < |orgs| && orgs[i].name in known ==> !Anchored(matches, orgs[i], e)) ||
    (forall i :: 0 <= i < |orgs| && orgs[i].name in known ==>
      Anchored(matches, orgs[i], e) || Admitted(admitted, channel, orgs[i].msp))
  }

  /** None of the first `n` organizations has an anchor. */
  ghost predicate NoneAnchored(matches: Reader, orgs: seq<ChannelOrg>, known: set<string>, e: Evidence, n: nat)
    requires n <= |orgs|
  {
    forall i :: 0 <= i < n && orgs[i].name in known ==> !Anchored(matches, orgs[i], e)
  }

  /** The first declared organization with an anchor administers the channel. */
  ghost predicate FirstAnchored(matches: Reader, orgs: seq<ChannelOrg>, known: set<string>, e: Evidence, a: nat) {
    a < |orgs| && orgs[a].name in known && Anchored(matches, orgs[a], e) && NoneAnchored(matches, orgs, known, e, a)
  }

  function JoiningOf(org: ChannelOrg): Joining {
    Joining(org.name, org.msp, org.signedRef, org.signedRead)
  }

  /** A declared organization without an anchor, whose admission the administrator's records have to show. */
  ghost predicate Candidate(matches: Reader, orgs: seq<ChannelOrg>, known: set<string>, e: Evidence, i: nat) {
    i < |orgs| && orgs[i].name in known && !Anchored(matches, orgs[i], e)
  }

  /** Exactly when the gate lets the pass on if no call fails: the records under the administrator's names show every admission. */
  ghost predicate GatePasses(
    matches: Reader, names: Names, channel: string, orgs: seq<ChannelOrg>, known: set<string>, e: Evidence, results: Results)
  {
    forall a: nat, i: nat :: FirstAnchored(matches, orgs, known, e, a) && Candidate(matches, orgs, known, e, i) ==>
      AdmittedBy(names, channel, orgs[a].name, JoiningOf(orgs[i]), results)
  }

  /** The update of the first candidate that is not admitted is under way. */
  ghost predicate AdmissionStarted(
    matches: Reader, names: Names, channel: string, orgs: seq<ChannelOrg>, known: set<string>, e: Evidence, results: Results,
    jobs: map<string, ChannelAdmission.JobState>)
  {
    forall a: nat, i: nat :: FirstAnchored(matches, orgs, known, e, a) && Candidate(matches, orgs, known, e, i) ==>
      (AdmittedBefore(matches, names, channel, orgs, known, e, results, a, i) ==>
        names.result(orgs[a].name, orgs[i].name) in results || names.job(orgs[a].name, orgs[i].name) in jobs)
  }

  ghost predicate AdmittedBefore(
    matches: Reader, names: Names, channel: string, orgs: seq<ChannelOrg>, known: set<string>, e: Evidence, results: Results,
    a: nat, i: nat)
    requires a < |orgs| && i <= |orgs|
  {
    forall j: nat :: j < i && Candidate(matches, orgs, known, e, j) ==>
      AdmittedBy(names, channel, orgs[a].name, JoiningOf(orgs[j]), results)
  }

  predicate NamedPeers(orgs: seq<ChannelOrg>) {
    forall i, k :: 0 <= i < |orgs| && 0 <= k < |orgs[i].peers| ==> orgs[i].peers[k] != ""
  }

  /** The inner loop: the first listed peer with anchor evidence, or the empty name. */
  method AnchoredPeer(store: EvidenceStore, matches: Reader, org: ChannelOrg) returns (peer: string)
    requires forall k :: 0 <= k < |org.peers| ==> org.peers[k] != ""
    ensures peer != "" <==> Anchored(matches, org, store.Snapshot())
    ensures peer != "" ==> peer in org.peers && ResultReady(matches, AnchorUpdate(org.name, peer), store.Snapshot())
  {
    for k := 0 to |org.peers|
      invariant forall l :: 0 <= l < k ==> !ResultReady(matches, AnchorUpdate(org.name, org.peers[l]), store.Snapshot())
    {
      var item := AnchorUpdate(org.name, org.peers[k]);
      if ResultReadiness(matches, item, Evidence(store.results, store.jobs, store.nextUid)).ready {
        assert org.peers[k] in org.peers;
        return org.peers[k];
      }
    }
    return "";
  }

  /** The candidates among the first `n` organizations, in their order. */
  ghost predicate CandidatesAre(
    matches: Reader, orgs: seq<ChannelOrg>, known: set<string>, e: Evidence, n: nat, candidates: seq<nat>)
  {
    (forall c :: 0 <= c < |candidates| ==> candidates[c] < n && Candidate(matches, orgs, known, e, candidates[c])) &&
    (forall i: nat :: i < n && Candidate(matches, orgs, known, e, i) ==> i in candidates) &&
    forall c, d :: 0 <= c < d < |candidates| ==> candidates[c] < candidates[d]
  }

  /** The administrator among the first `n` organizations, if there is one yet. */
  ghost predicate AdminIs(
    matches: Reader, orgs: seq<ChannelOrg>, known: set<string>, e: Evidence, n: nat, adminOrg: string, adminPeer: string)
    requires n <= |orgs|
  {
    if adminPeer == "" then NoneAnchored(matches, orgs, known, e, n)
    else
      exists a: nat :: a < n && FirstAnchored(matches, orgs, known, e, a) && adminOrg == orgs[a].name &&
        adminPeer in orgs[a].peers && ResultReady(matches, AnchorUpdate(adminOrg, adminPeer), e)
  }

  lemma AdminNext(
    matches: Reader, orgs: seq<ChannelOrg>, known: set<string>, e: Evidence, n: nat, adminOrg: string, adminPeer: string)
    requires n < |orgs| && AdminIs(matches, orgs, known, e, n, adminOrg, adminPeer)
    requires adminPeer != "" || orgs[n].name !in known || !Anchored(matches, orgs[n], e)
    ensures AdminIs(matches, orgs, known, e, n + 1, adminOrg, adminPeer)
  {
  }

  /** The first loop: who can administer, and which organizations still have to be admitted. */
  method Survey(store: EvidenceStore, matches: Reader, orgs: seq<ChannelOrg>, known: set<string>)
    returns (adminOrg: string, adminPeer: string, candidates: seq<nat>)
    requires NamedPeers(orgs)
    ensures AdminIs(matches, orgs, known, store.Snapshot(), |orgs|, adminOrg, adminPeer)
    ensures CandidatesAre(matches, orgs, known, store.Snapshot(), |orgs|, candidates)
  {
    adminOrg, adminPeer, candidates := "", "", [];
    for i := 0 to |orgs|
      invariant AdminIs(matches, orgs, known, store.Snapshot(), i, adminOrg, adminPeer)
      invariant CandidatesAre(matches, orgs, known, store.Snapshot(), i, candidates)
    {
      if orgs[i].name !in known {
        AdminNext(matches, orgs, known, store.Snapshot(), i, adminOrg, adminPeer);
        continue;
      }
      var peer := AnchoredPeer(store, matches, orgs[i]);
      if peer != "" {
        if adminPeer == "" {
          adminOrg, adminPeer := orgs[i].name, peer;
          assert FirstAnchored(matches, orgs, known, store.Snapshot(), i);
        } else {
          AdminNext(matches, orgs, known, store.Snapshot(), i, adminOrg, adminPeer);
        }
      } else {
        AdminNext(matches, orgs, known, store.Snapshot(), i, adminOrg, adminPeer);
        candidates := candidates + [i];
      }
    }
  }

  lemma OneAdministrator(matches: Reader, orgs: seq<ChannelOrg>, known: set<string>, e: Evidence, a: nat, b: nat)
    requires FirstAnchored(matches, orgs, known, e, a) && FirstAnchored(matches, orgs, known, e, b)
    ensures a == b
  {
  }

  /** An open way through the gate is an open gate. */
  lemma PassingIsOpen(
    matches: Reader, names: Names, channel: string, orgs: seq<ChannelOrg>, known: set<string>, e: Evidence, results: Results, a: nat)
    requires FirstAnchored(matches, orgs, known, e, a) && GatePasses(matches, names, channel, orgs, known, e, results)
    ensures GateOpen(matches, channel, orgs, known, e, results)
  {
    forall i | 0 <= i < |orgs| && orgs[i].name in known && !Anchored(matches, orgs[i], e)
      ensures Admitted(results, channel, orgs[i].msp)
    {
      assert Candidate(matches, orgs, known, e, i);
      AdmittedByRecord(names, channel, orgs[a].name, JoiningOf(orgs[i]), results);
    }
  }

  lemma AdmittedByRecord(names: Names, channel: string, admin: string, joining: Joining, results: Results)
    requires AdmittedBy(names, channel, admin, joining, results)
    ensures Admitted(results, channel, joining.msp)
  {
  }

  lemma CandidatesAdmitted(
    matches: Reader, names: Names, channel: string, orgs: seq<ChannelOrg>, known: set<string>, e: Evidence, results: Results,
    candidates: seq<nat>, a: nat, c: nat)
    requires CandidatesAre(matches, orgs, known, e, |orgs|, candidates) && FirstAnchored(matches, orgs, known, e, a)
    requires c <= |candidates|
    requires forall k :: 0 <= k < c ==> AdmittedBy(names, channel, orgs[a].name, JoiningOf(orgs[candidates[k]]), results)
    ensures AdmittedBefore(matches, names, channel, orgs, known, e, results, a, if c < |candidates| then candidates[c] else |orgs|)
    ensures c == |candidates| ==> GatePasses(matches, names, channel, orgs, known, e, results)
  {
    var n := if c < |candidates| then candidates[c] else |orgs|;
    forall j: nat | j < n && Candidate(matches, orgs, known, e, j)
      ensures AdmittedBy(names, channel, orgs[a].name, JoiningOf(orgs[j]), results)
    {
      var k :| 0 <= k < |candidates| && candidates[k] == j;
      assert k < c;
    }
    forall b: nat, i: nat | c == |candidates| && FirstAnchored(matches, orgs, known, e, b) && Candidate(matches, orgs, known, e, i)
      ensures AdmittedBy(names, channel, orgs[b].name, JoiningOf(orgs[i]), results)
    {
      OneAdministrator(matches, orgs, known, e, a, b);
    }
  }

  lemma AllAdmitted(
    matches: Reader, names: Names, channel: string, orgs: seq<ChannelOrg>, known: set<string>, e: Evidence, results: Results,
    jobs: map<string, ChannelAdmission.JobState>)
    requires GatePasses(matches, names, channel, orgs, known, e, results)
    ensures AdmissionStarted(matches, names, channel, orgs, known, e, results, jobs)
  {
  }

  lemma NobodyToAdmit(
    matches: Reader, names: Names, channel: string, orgs: seq<ChannelOrg>, known: set<string>, e: Evidence, results: Results,
    jobs: map<string, ChannelAdmission.JobState>)
    requires NoneAnchored(matches, orgs, known, e, |orgs|) || (forall i: nat :: !Candidate(matches, orgs, known, e, i))
    ensures GateOpen(matches, channel, orgs, known, e, results) && GatePasses(matches, names, channel, orgs, known, e, results)
    ensures AdmissionStarted(matches, names, channel, orgs, known, e, results, jobs)
  {
    if !NoneAnchored(matches, orgs, known, e, |orgs|) {
      forall i | 0 <= i < |orgs| && orgs[i].name in known
        ensures Anchored(matches, orgs[i], e)
      {
        assert !Candidate(matches, orgs, known, e, i);
      }
    }
  }

  /** The pass stops at a candidate: its update is under way, and the gate is not passed unless a call failed. */
  lemma GateStops(
    matches: Reader, names: Names, channel: string, orgs: seq<ChannelOrg>, known: set<string>, e: Evidence, results: Results,
    jobs: map<string, ChannelAdmission.JobState>, a: nat, n: nat)
    requires FirstAnchored(matches, orgs, known, e, a) && Candidate(matches, orgs, known, e, n)
    requires !AdmittedBy(names, channel, orgs[a].name, JoiningOf(orgs[n]), results)
    requires names.result(orgs[a].name, orgs[n].name) in results || names.job(orgs[a].name, orgs[n].name) in jobs
    requires forall j: nat :: j < n && Candidate(matches, orgs, known, e, j) ==>
      names.result(orgs[a].name, orgs[j].name) in results
    ensures !GatePasses(matches, names, channel, orgs, known, e, results)
    ensures AdmissionStarted(matches, names, channel, orgs, known, e, results, jobs)
  {
    forall b: nat, i: nat | FirstAnchored(matches, orgs, known, e, b) && Candidate(matches, orgs, known, e, i) &&
                            AdmittedBefore(matches, names, channel, orgs, known, e, results, b, i)
      ensures names.result(orgs[b].name, orgs[i].name) in results || names.job(orgs[b].name, orgs[i].name) in jobs
    {
      OneAdministrator(matches, orgs, known, e, a, b);
      assert i <= n;
    }
  }

  /**
   reconcileLocalOrgAdditions: no message and no error only when the gate is open; without
   failing calls exactly when the records show every admission, and otherwise the update of the
   first organization that is not admitted is under way.
   */
  method ReconcileLocalOrgAdditions(
    store: EvidenceStore, admissions: Admissions, matches: Reader, names: Names, channel: string, orgs: seq<ChannelOrg>,
    known: set<string>, faults: set<Call>)
    returns (message: string, err: bool)
    requires NamedPeers(orgs)
    modifies admissions`jobs
    ensures !err && message == "" ==> GateOpen(matches, channel, orgs, known, store.Snapshot(), admissions.results)
    ensures !err && message == "" ==> GatePasses(matches, names, channel, orgs, known, store.Snapshot(), admissions.results)
    ensures GatePasses(matches, names, channel, orgs, known, store.Snapshot(), admissions.results) && faults == {} ==>
              !err && message == ""
    ensures faults == {} ==>
              AdmissionStarted(matches, names, channel, orgs, known, store.Snapshot(), admissions.results, admissions.jobs)
    ensures AllAnchored(matches, orgs, store.Snapshot()) ==> !err && message == ""
    ensures OnlyStarts(old(admissions.jobs), admissions.jobs)
  {
    message, err := "", false;
    var adminOrg, adminPeer, candidates := Survey(store, matches, orgs, known);
    if adminPeer == "" || candidates == [] {
      NobodyToAdmit(matches, names, channel, orgs, known, store.Snapshot(), admissions.results, admissions.jobs);
      return;
    }
    assert Candidate(matches, orgs, known, store.Snapshot(), candidates[0]);
    message, err := AdmitCandidates(admissions, matches, names, channel, orgs, known, store.Snapshot(), adminOrg, candidates, faults);
  }

  /** The second loop: one candidate after the other, until one is not ready. */
  method AdmitCandidates(
    admissions: Admissions, matches: Reader, names: Names, channel: string, orgs: seq<ChannelOrg>, known: set<string>,
    ghost e: Evidence, adminOrg: string, candidates: seq<nat>, faults: set<Call>)
    returns (message: string, err: bool)
    requires CandidatesAre(matches, orgs, known, e, |orgs|, candidates)
    requires exists a: nat :: FirstAnchored(matches, orgs, known, e, a) && adminOrg == orgs[a].name
    modifies admissions`jobs
    ensures !err && message == "" ==>
              GateOpen(matches, channel, orgs, known, e, admissions.results) &&
              GatePasses(matches, names, channel, orgs, known, e, admissions.results)
    ensures GatePasses(matches, names, channel, orgs, known, e, admissions.results) && faults == {} ==> !err && message == ""
    ensures faults == {} ==> AdmissionStarted(matches, names, channel, orgs, known, e, admissions.results, admissions.jobs)
    ensures OnlyStarts(old(admissions.jobs), admissions.jobs)
  {
    message, err := "", false;
    ghost var a: nat :| FirstAnchored(matches, orgs, known, e, a) && adminOrg == orgs[a].name;
    for c := 0 to |candidates|
      invariant message == "" && !err && OnlyStarts(old(admissions.jobs), admissions.jobs)
      invariant forall k :: 0 <= k < c ==> AdmittedBy(names, channel, adminOrg, JoiningOf(orgs[candidates[k]]), admissions.results)
    {
      var org := orgs[candidates[c]];
      var ready, waiting, failed := admissions.ReconcileLocalOrgAdd(names, channel, adminOrg, JoiningOf(org), faults);
      CandidatesAdmitted(matches, names, channel, orgs, known, e, admissions.results, candidates, a, c);
      if !ready && faults == {} {
        GateStops(matches, names, channel, orgs, known, e, admissions.results, admissions.jobs, a, candidates[c]);
      }
      if failed {
        return "", true;
      }
      if !ready {
        return waiting, false;
      }
    }
    CandidatesAdmitted(matches, names, channel, orgs, known, e, admissions.results, candidates, a, |candidates|);
    AllAdmitted(matches, names, channel, orgs, known, e, admissions.results, admissions.jobs);
    PassingIsOpen(matches, names, channel, orgs, known, e, admissions.results, a);
  }

  // ------------------------------------------------------------------------------ the channel

  /**
   One channel of the spec as the reconciler finds it. `known` and `declares` are the declared
   organizations and their peers, `componentsReady` and `blockReady` the two gates in front of
   the first stage; `raft` is the Raft update, if there is one.
   */
  datatype Channel = Channel(
    name: string, orgs: seq<ChannelOrg>, orderers: seq<string>, known: set<string>, declares: (string, string) -> bool,
    tls: bool, componentsReady: bool, blockReady: bool, external: seq<External>, raft: Option<RaftReconcile.Request>)

  /** The parts of the environment that stay fixed during a pass: readers, names, Job metadata, libraries, failing calls. */
  datatype Setting = Setting(
    matches: Reader, names: Names, meta: JobMeta, lib: Consenters.Library, digests: RaftReconcile.Digests,
    faults: set<Call>, raftFaults: set<RaftReconcile.Call>)

  /** The checks before the first stage. */
  predicate Startable(ch: Channel) {
    Whitespace.Trim(ch.name) != "" && ch.orgs != [] && ch.orderers != [] && ch.tls &&
    (forall o <- ch.orgs :: o.name in ch.known && o.peers != [] && AllDeclared(ch, o)) && ch.componentsReady && ch.blockReady
  }

  predicate AllDeclared(ch: Channel, o: ChannelOrg) {
    forall p <- o.peers :: ch.declares(o.name, p)
  }

  lemma StartableExactly(ch: Channel)
    ensures Startable(ch) <==>
      Whitespace.Trim(ch.name) != "" && ch.tls && ch.componentsReady && ch.blockReady && |ch.orgs| > 0 && |ch.orderers| > 0 &&
      (forall i :: 0 <= i < |ch.orgs| ==> ch.orgs[i].name in ch.known && |ch.orgs[i].peers| > 0) &&
      forall i, k :: 0 <= i < |ch.orgs| && 0 <= k < |ch.orgs[i].peers| ==> ch.declares(ch.orgs[i].name, ch.orgs[i].peers[k])
  {
    forall i, k | Startable(ch) && 0 <= i < |ch.orgs| && 0 <= k < |ch.orgs[i].peers|
      ensures ch.declares(ch.orgs[i].name, ch.orgs[i].peers[k])
    {
      assert ch.orgs[i] in ch.orgs && ch.orgs[i].peers[k] in ch.orgs[i].peers;
    }
  }

  /** Everything durable that the stages look at. */
  datatype Cluster = Cluster(evidence: Evidence, admissions: Results, raft: RaftReconcile.World)

  /** Orderers, peers and anchors all have durable evidence. */
  ghost predicate LocallyDone(x: Setting, ch: Channel, e: Evidence) {
    EvidentAll(x.matches, OrdererItems(ch.orderers), e) && PeersEvident(x.matches, ch.orgs, e) &&
    forall o <- ch.orgs :: AnchorEvident(x.matches, ch.orgs, o.name, e)
  }

  /** Everything that Ready stands for. */
  ghost predicate Bootstrapped(x: Setting, ch: Channel, c: Cluster) {
    LocallyDone(x, ch, c.evidence) && ExternalsDone(x, ch, c.admissions) && RaftDone(x, ch, c.raft)
  }

  /** Every external organization has the records that make it ready. */
  ghost predicate ExternalsDone(x: Setting, ch: Channel, results: Results) {
    forall i :: 0 <= i < |ch.external| ==> ExternalReady(x.names, ch.name, ch.external[i], results)
  }

  /** The Raft update is absent or Ready. */
  ghost predicate RaftDone(x: Setting, ch: Channel, w: RaftReconcile.World) {
    ch.raft.Some? ==> RaftReconcile.ReadyBy(x.lib, x.digests, ch.raft.value, w, x.raftFaults)
  }

  /** Listed organizations up to the first without anchor evidence have their evidence or their Job. */
  ghost predicate AnchorsUpTo(matches: Reader, orgs: seq<ChannelOrg>, before: Evidence, after: Evidence) {
    forall i: nat :: i < |orgs| && AnchorsBefore(matches, orgs, i, before) ==> AnchorStarted(matches, orgs, orgs[i].name, after)
  }

  ghost predicate AnchorsBefore(matches: Reader, orgs: seq<ChannelOrg>, i: nat, e: Evidence)
    requires i <= |orgs|
  {
    forall j :: 0 <= j < i ==> AnchorEvident(matches, orgs, orgs[j].name, e)
  }

  /** Peers up to the first stuck one are under way and, once all have joined, so are the anchors up to the first missing one. */
  ghost predicate MembersStarted(x: Setting, ch: Channel, before: Evidence, after: Evidence) {
    PeersStarted(x.matches, ch.orgs, ch.known, before, after) &&
    (PeersEvident(x.matches, ch.orgs, before) ==> AnchorsUpTo(x.matches, ch.orgs, before, after))
  }

  /**
   What a pass that no call interrupts starts: orderer joins up to the first stuck one; with all
   orderers joined, the admission that the gate waits for; and through the gate peers and anchors.
   */
  ghost predicate LocallyStarted(
    x: Setting, ch: Channel, before: Evidence, after: Evidence, results: Results, jobs: map<string, ChannelAdmission.JobState>)
  {
    StartedUpTo(x.matches, OrdererItems(ch.orderers), before, after) &&
    (EvidentAll(x.matches, OrdererItems(ch.orderers), before) && x.faults == {} ==>
      AdmissionStarted(x.matches, x.names, ch.name, ch.orgs, ch.known, before, results, jobs) &&
      (GatePasses(x.matches, x.names, ch.name, ch.orgs, ch.known, before, results) ==> MembersStarted(x, ch, before, after)))
  }

  /** Every external update that can begin has a result or its Job. */
  ghost predicate ExternalsStarted(x: Setting, ch: Channel, results: Results, jobs: map<string, ChannelAdmission.JobState>) {
    forall i :: 0 <= i < |ch.external| && ch.external[i].admin.Some? && ch.external[i].hasOrderer && Applicable(ch.external[i]) ==>
      ExternalStarted(x.names, ch.external[i], results, jobs)
  }

  /** A reviewed Raft update has moved on as far as RaftReconcile promises if no call fails. */
  ghost predicate RaftStarted(x: Setting, ch: Channel, before: RaftReconcile.World, after: RaftReconcile.World) {
    ch.raft.Some? && x.raftFaults == {} && RaftReconcile.Reviewed(x.lib, ch.raft.value).Some? ==>
      exists status, failed ::
        RaftReconcile.Reports(x.lib, x.digests, ch.raft.value, RaftReconcile.Reviewed(x.lib, ch.raft.value).value, before, after, status, failed)
  }

  ghost predicate PeerJobCreated(before: map<Slot, Job>, after: map<Slot, Job>) {
    exists slot: Slot :: slot.PeerSlot? && slot in after && slot !in before
  }

  class ChannelReconciler {
    const store: EvidenceStore
    const admissions: Admissions
    const raft: RaftReconcile.RaftObjects

    constructor (store: EvidenceStore, admissions: Admissions, raft: RaftReconcile.RaftObjects)
      ensures this.store == store && this.admissions == admissions && this.raft == raft
    {
      this.store, this.admissions, this.raft := store, admissions, raft;
    }

    ghost function Snapshot(): Cluster
      reads store, admissions, raft
    {
      Cluster(store.Snapshot(), admissions.results, raft.Snapshot())
    }

    /** The stages behind the gate: peers, then anchors. */
    method ReconcileMembers(x: Setting, ch: Channel) returns (done: bool)
      requires BuilderMarks(x.meta.annotations) && Startable(ch)
      modifies store`jobs, store`nextUid
      ensures Extends(x.matches, old(store.Snapshot()), store.Snapshot())
      ensures done ==> PeersEvident(x.matches, ch.orgs, store.Snapshot()) &&
                       forall o <- ch.orgs :: AnchorEvident(x.matches, ch.orgs, o.name, store.Snapshot())
      ensures PeersEvident(x.matches, ch.orgs, old(store.Snapshot())) ==>
                ((forall o <- ch.orgs :: AnchorEvident(x.matches, ch.orgs, o.name, old(store.Snapshot()))) ==> done)
      ensures MembersStarted(x, ch, old(store.Snapshot()), store.Snapshot())
    {
      done := false;
      var complete, counts, message := ReconcilePeerJoins(store, x.matches, ch.orgs, ch.known, x.meta);
      if message != "" {
        return;
      }
      ghost var peered := store.Snapshot();
      message := ReconcileAnchorPeerUpdates(store, x.matches, ch.orgs, counts, ch.known, x.meta);
      AnchorsFollow(x, ch, counts, old(store.Snapshot()), peered, store.Snapshot());
      if message != "" {
        return;
      }
      forall i: nat | i < |ch.orgs|
        ensures AnchorEvident(x.matches, ch.orgs, ch.orgs[i].name, store.Snapshot())
      {
        assert ch.orgs[i] in ch.orgs;
      }
      done := true;
    }

    /** The stages up to the anchors; `done` without an error means that all of them are complete. */
    method ReconcileLocal(x: Setting, ch: Channel) returns (done: bool, err: bool)
      requires BuilderMarks(x.meta.annotations) && NamedPeers(ch.orgs)
      modifies store`jobs, store`nextUid, admissions`jobs
      ensures Extends(x.matches, old(store.Snapshot()), store.Snapshot())
      ensures done ==> !err && Startable(ch) && LocallyDone(x, ch, store.Snapshot())
      ensures Startable(ch) && AllAnchored(x.matches, ch.orgs, old(store.Snapshot())) ==>
                (LocallyDone(x, ch, old(store.Snapshot())) ==> done)
      ensures PeerJobCreated(old(store.jobs), store.jobs) ==>
                GateOpen(x.matches, ch.name, ch.orgs, ch.known, old(store.Snapshot()), admissions.results)
      ensures !Startable(ch) ==> !err && store.Snapshot() == old(store.Snapshot()) && admissions.jobs == old(admissions.jobs)
      ensures Startable(ch) ==>
                LocallyStarted(x, ch, old(store.Snapshot()), store.Snapshot(), admissions.results, admissions.jobs)
    {
      done, err := false, false;
      NothingLostReflexive(x.matches, store.Snapshot());
      if !Startable(ch) {
        return;
      }
      var joined, message := JoinAll(store, x.matches, OrdererItems(ch.orderers), x.meta);
      assert !PeerJobCreated(old(store.jobs), store.jobs);
      if message != "" || joined < |ch.orderers| {
        return;
      }
      ghost var ordered := store.Snapshot();
      message, err := ReconcileLocalOrgAdditions(store, admissions, x.matches, x.names, ch.name, ch.orgs, ch.known, x.faults);
      SameAnchors(x.matches, x.names, ch.name, ch.orgs, ch.known, old(store.Snapshot()), ordered, admissions.results, admissions.jobs);
      if err || message != "" {
        return;
      }
      done := ReconcileMembers(x, ch);
      StartedBehindGate(x, ch, old(store.Snapshot()), ordered, store.Snapshot());
    }

    /**
     One pass of reconcileChannels over one channel. Ready means that every orderer, peer and
     anchor has durable evidence, every external organization its finished record, and the
     Raft update its receipts; an anchored channel for which all that already holds is found
     ready if no call fails; and a peer join Job is created only through an open gate.
     */
    method ReconcileChannel(x: Setting, ch: Channel) returns (ready: bool, err: bool)
      requires BuilderMarks(x.meta.annotations) && NamedPeers(ch.orgs)
      modifies store`jobs, store`nextUid, admissions`jobs, raft`inputs, raft`jobs
      ensures Extends(x.matches, old(store.Snapshot()), store.Snapshot())
      ensures ready ==> !err && Startable(ch) && Bootstrapped(x, ch, Snapshot())
      ensures Startable(ch) && AllAnchored(x.matches, ch.orgs, old(store.Snapshot())) && x.faults == {} ==>
                (Bootstrapped(x, ch, old(Snapshot())) ==> ready)
      ensures PeerJobCreated(old(store.jobs), store.jobs) ==>
                GateOpen(x.matches, ch.name, ch.orgs, ch.known, old(store.Snapshot()), admissions.results)
      ensures !Startable(ch) ==> !ready && !err && Snapshot() == old(Snapshot()) && admissions.jobs == old(admissions.jobs)
      ensures Startable(ch) ==>
                LocallyStarted(x, ch, old(store.Snapshot()), store.Snapshot(), admissions.results, admissions.jobs)
      ensures Startable(ch) && AllAnchored(x.matches, ch.orgs, old(store.Snapshot())) && x.faults == {} ==>
                (LocallyDone(x, ch, old(store.Snapshot())) && !err ==> ExternalsStarted(x, ch, admissions.results, admissions.jobs)) &&
                (LocallyDone(x, ch, old(store.Snapshot())) && ExternalsDone(x, ch, admissions.results) ==>
                   RaftStarted(x, ch, old(raft.Snapshot()), raft.Snapshot()))
    {
      ready, err := false, false;
      var done: bool;
      done, err := ReconcileLocal(x, ch);
      if !done {
        return;
      }
      ghost var jobs := admissions.jobs;
      var message: string;
      message, err := admissions.ReconcileExternalOrgUpdates(x.names, ch.name, ch.external, x.faults);
      StillStarted(x, ch, old(store.Snapshot()), store.Snapshot(), admissions.results, jobs, admissions.jobs);
      if err || message != "" {
        return;
      }
      ready, err := ReconcileRaft(x, ch);
    }

    /** The last stage, and the Raft part of the Ready flag. */
    method ReconcileRaft(x: Setting, ch: Channel) returns (done: bool, err: bool)
      modifies raft`inputs, raft`jobs
      ensures done <==> RaftDone(x, ch, old(raft.Snapshot()))
      ensures done ==> !err && raft.Snapshot() == old(raft.Snapshot())
      ensures RaftStarted(x, ch, old(raft.Snapshot()), raft.Snapshot())
    {
      done, err := true, false;
      if ch.raft.Some? {
        var status: RaftReconcile.Status;
        status, err := raft.ReconcileRaftUpdate(x.lib, x.digests, ch.raft.value, x.raftFaults);
        done := !err && status.ready && status.message == "";
      }
    }
  }

  /** A channel that is Ready shows a finished record for each external organization. */
  lemma ReadyShowsExternal(x: Setting, ch: Channel, c: Cluster, i: nat)
    requires Bootstrapped(x, ch, c) && i < |ch.external|
    ensures ExternalEvident(c.admissions, ch.name, ch.external[i])
  {
    ExternalReadyIsEvident(x.names, ch.name, ch.external[i], c.admissions);
  }

  /** A channel that is Ready, in any cluster that the reconcilers and Jobs can reach, has its Raft update proven. */
  lemma ReadyProvesRaft(x: Setting, ch: Channel, c: Cluster, chains: RaftReady.Chains, worlds: seq<RaftReconcile.World>, j: nat)
    requires Consenters.RoundTrips(x.lib) && RaftReady.DigestsOk(x.digests)
    requires RaftReady.WorldRun(x.lib, x.digests, chains, worlds) && j < |worlds| && worlds[j] == c.raft
    requires Bootstrapped(x, ch, c) && ch.raft.Some?
    ensures var req := ch.raft.value;
            var plan := RaftReconcile.Reviewed(x.lib, req).value;
            exists p <- c.raft.results.Values :: RaftReady.NothingToDo(x.digests, chains, req, plan, p) ||
              (req.signed.Available? && RaftReady.SubmissionProven(x.lib, x.digests, chains, req, plan, req.signed.value, p))
  {
    RaftReady.ReadyIsSound(x.lib, x.digests, chains, worlds, j, ch.raft.value, x.raftFaults);
  }

  /** Only results decide who has an anchor. */
  lemma SameAnchors(
    matches: Reader, names: Names, channel: string, orgs: seq<ChannelOrg>, known: set<string>, e: Evidence, f: Evidence,
    results: Results, jobs: map<string, ChannelAdmission.JobState>)
    requires e.results == f.results
    ensures GateOpen(matches, channel, orgs, known, f, results) ==> GateOpen(matches, channel, orgs, known, e, results)
    ensures AllAnchored(matches, orgs, e) ==> AllAnchored(matches, orgs, f)
    ensures GatePasses(matches, names, channel, orgs, known, e, results) <==>
            GatePasses(matches, names, channel, orgs, known, f, results)
    ensures AdmissionStarted(matches, names, channel, orgs, known, f, results, jobs) ==>
            AdmissionStarted(matches, names, channel, orgs, known, e, results, jobs)
  {
    AnchoredByResults(matches, orgs, e, f);
    forall a: nat
      ensures FirstAnchored(matches, orgs, known, e, a) <==> FirstAnchored(matches, orgs, known, f, a)
      ensures Candidate(matches, orgs, known, e, a) <==> Candidate(matches, orgs, known, f, a)
    {
    }
    forall a: nat, i: nat | a < |orgs| && i <= |orgs|
      ensures AdmittedBefore(matches, names, channel, orgs, known, e, results, a, i) <==>
              AdmittedBefore(matches, names, channel, orgs, known, f, results, a, i)
    {
    }
  }

  lemma AnchoredByResults(matches: Reader, orgs: seq<ChannelOrg>, e: Evidence, f: Evidence)
    requires e.results == f.results
    ensures forall i :: 0 <= i < |orgs| ==> (Anchored(matches, orgs[i], e) <==> Anchored(matches, orgs[i], f))
  {
    forall i | 0 <= i < |orgs|
      ensures Anchored(matches, orgs[i], e) <==> Anchored(matches, orgs[i], f)
    {
      forall p <- orgs[i].peers
        ensures ResultReady(matches, AnchorUpdate(orgs[i].name, p), e) <==> ResultReady(matches, AnchorUpdate(orgs[i].name, p), f)
      {
      }
    }
  }

  /** What was started behind the gate, seen from the beginning of the pass. */
  lemma StartedBehindGate(x: Setting, ch: Channel, start: Evidence, ordered: Evidence, e: Evidence)
    requires Extends(x.matches, start, ordered) && Extends(x.matches, ordered, e) && MembersStarted(x, ch, ordered, e)
    requires StartedUpTo(x.matches, OrdererItems(ch.orderers), start, ordered)
    requires EvidentAll(x.matches, OrdererItems(ch.orderers), ordered)
    ensures Extends(x.matches, start, e) && MembersStarted(x, ch, start, e)
    ensures StartedUpTo(x.matches, OrdererItems(ch.orderers), start, e)
    ensures EvidentAll(x.matches, OrdererItems(ch.orderers), e)
    ensures PeersEvident(x.matches, ch.orgs, start) ==> PeersEvident(x.matches, ch.orgs, ordered)
    ensures forall o <- ch.orgs :: AnchorEvident(x.matches, ch.orgs, o.name, start) ==> AnchorEvident(x.matches, ch.orgs, o.name, ordered)
  {
    ExtendsTransitive(x.matches, start, ordered, e);
    StartedLater(x.matches, OrdererItems(ch.orderers), start, ordered, e);
    EvidentAllExtends(x.matches, OrdererItems(ch.orderers), ordered, e);
    PeersStartedEarlier(x.matches, ch.orgs, ch.known, start, ordered, e);
    if PeersEvident(x.matches, ch.orgs, start) {
      PeersStayEvident(x.matches, ch.orgs, start, ordered);
      AnchorsUpToEarlier(x.matches, ch.orgs, start, ordered, e);
    }
  }

  lemma StillStarted(
    x: Setting, ch: Channel, before: Evidence, after: Evidence, results: Results, jobs: map<string, ChannelAdmission.JobState>,
    later: map<string, ChannelAdmission.JobState>)
    requires LocallyStarted(x, ch, before, after, results, jobs) && OnlyStarts(jobs, later)
    ensures LocallyStarted(x, ch, before, after, results, later)
  {
  }

  lemma PeersStayEvident(matches: Reader, orgs: seq<ChannelOrg>, before: Evidence, after: Evidence)
    requires PeersEvident(matches, orgs, before) && Extends(matches, before, after)
    ensures PeersEvident(matches, orgs, after)
  {
    forall i | 0 <= i < |orgs|
      ensures EvidentAll(matches, PeerItems(orgs[i]), after)
    {
      EvidentAllExtends(matches, PeerItems(orgs[i]), before, after);
    }
  }

  lemma PeersStartedEarlier(
    matches: Reader, orgs: seq<ChannelOrg>, known: set<string>, start: Evidence, before: Evidence, after: Evidence)
    requires Extends(matches, start, before) && Extends(matches, before, after)
    requires PeersStarted(matches, orgs, known, before, after)
    ensures PeersStarted(matches, orgs, known, start, after)
  {
    forall i: nat | i < |orgs| && orgs[i].name in known && ClearBefore(matches, orgs, known, i, start)
      ensures StartedUpTo(matches, PeerItems(orgs[i]), start, after)
    {
      forall j | 0 <= j < i && orgs[j].name in known
        ensures NoneStuck(matches, PeerItems(orgs[j]), before)
      {
        StartedLater(matches, PeerItems(orgs[j]), start, before, after);
      }
      StartedLater(matches, PeerItems(orgs[i]), start, before, after);
    }
  }

  lemma AnchorsUpToEarlier(matches: Reader, orgs: seq<ChannelOrg>, start: Evidence, before: Evidence, after: Evidence)
    requires Extends(matches, start, before) && AnchorsUpTo(matches, orgs, before, after)
    ensures AnchorsUpTo(matches, orgs, start, after)
  {
    forall i: nat | i < |orgs| && AnchorsBefore(matches, orgs, i, start)
      ensures AnchorsBefore(matches, orgs, i, before)
    {
    }
  }

  /** With every peer joined, every listed organization is complete. */
  lemma AnchorsFollow(x: Setting, ch: Channel, counts: seq<nat>, start: Evidence, peered: Evidence, e: Evidence)
    requires Startable(ch) && |counts| == |ch.orgs| && forall i :: 0 <= i < |ch.orgs| ==> counts[i] == |ch.orgs[i].peers|
    requires Extends(x.matches, start, peered) && Extends(x.matches, peered, e)
    requires PeersStarted(x.matches, ch.orgs, ch.known, start, peered) && PeersEvident(x.matches, ch.orgs, peered)
    requires AnchorsStarted(x.matches, ch.orgs, counts, ch.known, peered, e)
    ensures Extends(x.matches, start, e) && MembersStarted(x, ch, start, e) && PeersEvident(x.matches, ch.orgs, e)
    ensures forall o <- ch.orgs :: AnchorEvident(x.matches, ch.orgs, o.name, start) ==> AnchorEvident(x.matches, ch.orgs, o.name, peered)
  {
    ExtendsTransitive(x.matches, start, peered, e);
    PeersStayEvident(x.matches, ch.orgs, peered, e);
    PeersStartedLater(x.matches, ch.orgs, ch.known, start, peered, e);
    forall i: nat | i < |ch.orgs| && AnchorsBefore(x.matches, ch.orgs, i, peered)
      ensures AnchorStarted(x.matches, ch.orgs, ch.orgs[i].name, e)
    {
      assert ch.orgs[i] in ch.orgs && Complete(ch.orgs, counts, ch.known, i);
      assert AnchoredBefore(x.matches, ch.orgs, counts, ch.known, i, peered);
    }
    AnchorsUpToEarlier(x.matches, ch.orgs, start, peered, e);
  }

  lemma PeersStartedLater(
    matches: Reader, orgs: seq<ChannelOrg>, known: set<string>, start: Evidence, before: Evidence, after: Evidence)
    requires Extends(matches, start, before) && Extends(matches, before, after)
    requires PeersStarted(matches, orgs, known, start, before)
    ensures PeersStarted(matches, orgs, known, start, after)
  {
    forall i: nat | i < |orgs| && orgs[i].name in known && ClearBefore(matches, orgs, known, i, start)
      ensures StartedUpTo(matches, PeerItems(orgs[i]), start, after)
    {
      StartedLater(matches, PeerItems(orgs[i]), start, before, after);
    }
  }
}
