/**
 The gate in front of a chaincode commit (reconcileChaincodes in
 internal/controller/fabricnetwork_chaincode.go): installs and approvals are counted target by
 target, and the commit Job is created only when the counts agree. What the counts mean
 depends on the channel checks of fabricnetwork_topology.go.
 */
module ChaincodeCommit {
  import opened Wrappers
  import opened Whitespace
  import opened ChannelBootstrap

  /** The declared organizations with their declared peers, under trimmed names. */
  type Declared = map<string, set<string>>

  /** What the cluster shows for one chaincode definition. */
  datatype Lifecycle = Lifecycle(
    sequence: int, hasOrderer: bool,
    packageID: (string, string) -> Option<string>,     // install evidence of an organization's peer
    approved: (string, string) -> Option<int>,          // approved sequence of an organization and package
    committed: string -> Option<int>)                   // committed sequence of a package

  // ------------------------------------------------------------------------------- the topology

  /** The channel part of validateFabricNetworkTopology: no problem is reported for this channel. */
  predicate Sound(orgs: seq<ChannelOrg>, declared: Declared) {
    orgs != [] && forall i :: 0 <= i < |orgs| ==> SoundOrg(orgs[i], declared)
  }

  predicate SoundOrg(org: ChannelOrg, declared: Declared) {
    Trim(org.name) in declared && declared[Trim(org.name)] != {} && org.peers != [] &&
    forall p <- org.peers :: p in declared[Trim(org.name)]
  }

  method ValidateChannel(channel: string, orgs: seq<ChannelOrg>, declared: Declared) returns (problems: seq<string>)
    ensures problems == [] <==> Sound(orgs, declared)
  {
    problems := [];
    if |orgs| == 0 {
      problems := problems + ["channel " + channel + " must include at least one peer org"];
    }
    for i := 0 to |orgs|
      invariant problems == [] <==> orgs != [] && forall k :: 0 <= k < i ==> SoundOrg(orgs[k], declared)
    {
      var name := Trim(orgs[i].name);
      if name !in declared {
        problems := problems + ["channel references unknown org " + name];
        continue;
      }
      if declared[name] == {} {
        problems := problems + ["channel org has no peer instances"];
        continue;
      }
      if orgs[i].peers == [] {
        problems := problems + ["channel org must include at least one peer"];
        continue;
      }
      var unknown := UnknownPeers(orgs[i].peers, declared[name]);
      if unknown != [] {
        problems := problems + ["channel org references unknown peers"];
      }
    }
  }

  /** unknownChannelPeers. */
  method UnknownPeers(peers: seq<string>, declared: set<string>) returns (unknown: seq<string>)
    ensures unknown == [] <==> forall p <- peers :: p in declared
  {
    unknown := [];
    for i := 0 to |peers|
      invariant unknown == [] <==> forall k :: 0 <= k < i ==> peers[k] in declared
    {
      if peers[i] !in declared {
        unknown := unknown + [peers[i]];
      }
    }
  }

  // ------------------------------------------------------------------------------ the counters

  /** A target that takes part: its organization and peer are declared under their own names. */
  predicate Eligible(orgs: seq<ChannelOrg>, declared: Declared, i: nat, k: nat)
    requires i < |orgs| && k < |orgs[i].peers|
  {
    orgs[i].name in declared && orgs[i].peers[k] in declared[orgs[i].name]
  }

  /** The organization's target that has to show its approval. */
  predicate Approver(orgs: seq<ChannelOrg>, declared: Declared, i: nat, k: nat)
    requires i < |orgs| && k < |orgs[i].peers|
  {
    Eligible(orgs, declared, i, k) && AnchorOf(orgs, orgs[i].name) == Some(orgs[i].peers[k])
  }

  /** The peer is installed and its organization's approval of that package has the right sequence. */
  predicate ApprovedAt(cc: Lifecycle, org: string, peer: string) {
    cc.hasOrderer && cc.packageID(org, peer).Some? && cc.packageID(org, peer).value != "" &&
    cc.approved(org, cc.packageID(org, peer).value) == Some(cc.sequence)
  }

  datatype Counts = Counts(desired: nat, ready: nat, packageID: string)

  /** Every approver among the first k targets of organization i and all targets before it has approved. */
  ghost predicate AllApproved(orgs: seq<ChannelOrg>, declared: Declared, cc: Lifecycle, i: nat, k: nat) {
    forall a: nat, b: nat :: a < |orgs| && b < |orgs[a].peers| && (a < i || (a == i && b < k)) ==>
      Approver(orgs, declared, a, b) ==> ApprovedAt(cc, orgs[a].name, orgs[a].peers[b])
  }

  ghost predicate SomeApprover(orgs: seq<ChannelOrg>, declared: Declared, i: nat, k: nat) {
    exists a: nat, b: nat :: a < |orgs| && b < |orgs[a].peers| && (a < i || (a == i && b < k)) && Approver(orgs, declared, a, b)
  }

  /** The target takes part and shows a package. */
  predicate Packaged(orgs: seq<ChannelOrg>, declared: Declared, cc: Lifecycle, i: nat, k: nat)
    requires i < |orgs| && k < |orgs[i].peers|
  {
    Eligible(orgs, declared, i, k) && cc.packageID(orgs[i].name, orgs[i].peers[k]) !in {None, Some("")}
  }

  ghost predicate NonePackaged(orgs: seq<ChannelOrg>, declared: Declared, cc: Lifecycle, i: nat, k: nat) {
    forall a: nat, b: nat :: a < |orgs| && b < |orgs[a].peers| && (a < i || (a == i && b < k)) ==> !Packaged(orgs, declared, cc, a, b)
  }

  /** `id` is the package of the first target that shows one, or empty if none does. */
  ghost predicate FirstPackage(orgs: seq<ChannelOrg>, declared: Declared, cc: Lifecycle, i: nat, k: nat, id: string) {
    if id == "" then NonePackaged(orgs, declared, cc, i, k)
    else
      exists a: nat, b: nat :: (a < i || (a == i && b < k)) && FirstAt(orgs, declared, cc, a, b, id)
  }

  /** This target shows package `id`, and none before it shows any. */
  ghost predicate FirstAt(orgs: seq<ChannelOrg>, declared: Declared, cc: Lifecycle, a: nat, b: nat, id: string) {
    a < |orgs| && b < |orgs[a].peers| && Packaged(orgs, declared, cc, a, b) &&
    cc.packageID(orgs[a].name, orgs[a].peers[b]) == Some(id) && NonePackaged(orgs, declared, cc, a, b)
  }

  lemma FirstPackageNext(orgs: seq<ChannelOrg>, declared: Declared, cc: Lifecycle, i: nat, k: nat, id: string, id': string)
    requires i < |orgs| && k < |orgs[i].peers| && FirstPackage(orgs, declared, cc, i, k, id)
    requires id' == if id == "" && Packaged(orgs, declared, cc, i, k) then cc.packageID(orgs[i].name, orgs[i].peers[k]).value else id
    ensures FirstPackage(orgs, declared, cc, i, k + 1, id')
  {
    if id != "" {
      var a: nat, b: nat :| (a < i || (a == i && b < k)) && FirstAt(orgs, declared, cc, a, b, id);
      assert FirstAt(orgs, declared, cc, a, b, id');
    } else if id' != "" {
      assert FirstAt(orgs, declared, cc, i, k, id');
    } else {
      forall a: nat, b: nat | a < |orgs| && b < |orgs[a].peers| && (a < i || (a == i && b < k + 1))
        ensures !Packaged(orgs, declared, cc, a, b)
      {
      }
    }
  }

  lemma FirstPackageNextOrg(orgs: seq<ChannelOrg>, declared: Declared, cc: Lifecycle, i: nat, id: string)
    requires i < |orgs| && FirstPackage(orgs, declared, cc, i, |orgs[i].peers|, id)
    ensures FirstPackage(orgs, declared, cc, i + 1, 0, id)
  {
    if id != "" {
      var a: nat, b: nat :| (a < i || (a == i && b < |orgs[i].peers|)) && FirstAt(orgs, declared, cc, a, b, id);
      assert FirstAt(orgs, declared, cc, a, b, id);
    }
  }

  /** The counts agree exactly when every approver so far has approved. */
  ghost predicate CountsMean(orgs: seq<ChannelOrg>, declared: Declared, cc: Lifecycle, i: nat, k: nat, c: Counts) {
    c.ready <= c.desired && (c.ready == c.desired <==> AllApproved(orgs, declared, cc, i, k)) &&
    (c.desired > 0 <==> SomeApprover(orgs, declared, i, k)) && (c.ready > 0 ==> c.packageID != "" && cc.hasOrderer)
  }

  /** One target of the nested loops. */
  method CountTarget(orgs: seq<ChannelOrg>, declared: Declared, cc: Lifecycle, i: nat, k: nat, c: Counts) returns (c': Counts)
    requires i < |orgs| && k < |orgs[i].peers| && CountsMean(orgs, declared, cc, i, k, c)
    requires FirstPackage(orgs, declared, cc, i, k, c.packageID)
    ensures CountsMean(orgs, declared, cc, i, k + 1, c')
    ensures FirstPackage(orgs, declared, cc, i, k + 1, c'.packageID)
  {
    c' := c;
    var org, peer := orgs[i].name, orgs[i].peers[k];
    OneMoreTarget(orgs, declared, cc, i, k);
    if org !in declared || peer !in declared[org] {
      FirstPackageNext(orgs, declared, cc, i, k, c.packageID, c.packageID);
      return;
    }
    var package := cc.packageID(org, peer);
    if package.Some? && c'.packageID == "" {
      c' := c'.(packageID := package.value);
    }
    FirstPackageNext(orgs, declared, cc, i, k, c.packageID, c'.packageID);
    if AnchorOf(orgs, org) == Some(peer) {
      c' := c'.(desired := c'.desired + 1);
      if package.Some? && package.value != "" && cc.hasOrderer && cc.approved(org, package.value) == Some(cc.sequence) {
        c' := c'.(ready := c'.ready + 1);
      }
    }
  }

  lemma OneMoreTarget(orgs: seq<ChannelOrg>, declared: Declared, cc: Lifecycle, i: nat, k: nat)
    requires i < |orgs| && k < |orgs[i].peers|
    ensures AllApproved(orgs, declared, cc, i, k + 1) <==>
            AllApproved(orgs, declared, cc, i, k) &&
            (Approver(orgs, declared, i, k) ==> ApprovedAt(cc, orgs[i].name, orgs[i].peers[k]))
    ensures SomeApprover(orgs, declared, i, k + 1) <==> SomeApprover(orgs, declared, i, k) || Approver(orgs, declared, i, k)
  {
  }

  lemma NextOrg(orgs: seq<ChannelOrg>, declared: Declared, cc: Lifecycle, i: nat)
    requires i < |orgs|
    ensures AllApproved(orgs, declared, cc, i, |orgs[i].peers|) <==> AllApproved(orgs, declared, cc, i + 1, 0)
    ensures SomeApprover(orgs, declared, i, |orgs[i].peers|) <==> SomeApprover(orgs, declared, i + 1, 0)
  {
  }

  /** The nested loops over organizations and peers. */
  method CountApprovals(orgs: seq<ChannelOrg>, declared: Declared, cc: Lifecycle) returns (c: Counts)
    ensures CountsMean(orgs, declared, cc, |orgs|, 0, c) && FirstPackage(orgs, declared, cc, |orgs|, 0, c.packageID)
  {
    c := Counts(0, 0, "");
    for i := 0 to |orgs|
      invariant CountsMean(orgs, declared, cc, i, 0, c) && FirstPackage(orgs, declared, cc, i, 0, c.packageID)
    {
      for k := 0 to |orgs[i].peers|
        invariant CountsMean(orgs, declared, cc, i, k, c) && FirstPackage(orgs, declared, cc, i, k, c.packageID)
      {
        c := CountTarget(orgs, declared, cc, i, k, c);
      }
      NextOrg(orgs, declared, cc, i);
      FirstPackageNextOrg(orgs, declared, cc, i, c.packageID);
    }
  }

  // ------------------------------------------------------------------------------- the gate

  /** Some listed peer of the organization has a package installed, and its approval shows the definition's sequence. */
  ghost predicate OrgApproved(orgs: seq<ChannelOrg>, cc: Lifecycle, name: string) {
    exists i: nat, k: nat :: i < |orgs| && k < |orgs[i].peers| && orgs[i].name == name &&
      cc.packageID(name, orgs[i].peers[k]) !in {None, Some("")} &&
      cc.approved(name, cc.packageID(name, orgs[i].peers[k]).value) == Some(cc.sequence)
  }

  /** The approval peer of an organization is one of its listed peers. */
  lemma {:induction false} ApprovalPeerIsListed(orgs: seq<ChannelOrg>, name: string) returns (i: nat)
    requires AnchorOf(orgs, name).Some?
    ensures i < |orgs| && orgs[i].name == name && orgs[i].peers != [] && AnchorOf(orgs, name) == Some(orgs[i].peers[0])
    ensures forall j :: i < j < |orgs| && orgs[j].name == name ==> orgs[j].peers == []
  {
    var last := orgs[|orgs| - 1];
    if last.name == name && last.peers != [] {
      i := |orgs| - 1;
    } else {
      i := ApprovalPeerIsListed(orgs[..|orgs| - 1], name);
    }
  }

  /** Validation trims organization names and the reconciler does not; the schema admits only trimmed ones. */
  predicate Trimmed(orgs: seq<ChannelOrg>) {
    forall i :: 0 <= i < |orgs| ==> Trim(orgs[i].name) == orgs[i].name
  }

  lemma EveryOrgApproved(orgs: seq<ChannelOrg>, declared: Declared, cc: Lifecycle)
    requires Sound(orgs, declared) && Trimmed(orgs) && AllApproved(orgs, declared, cc, |orgs|, 0)
    ensures forall j :: 0 <= j < |orgs| ==> OrgApproved(orgs, cc, orgs[j].name)
  {
    forall j: nat | j < |orgs|
      ensures OrgApproved(orgs, cc, orgs[j].name)
    {
      CommitNeedsEveryApproval(orgs, declared, cc, j);
    }
  }

  lemma CommitNeedsEveryApproval(orgs: seq<ChannelOrg>, declared: Declared, cc: Lifecycle, j: nat)
    requires Sound(orgs, declared) && Trimmed(orgs)
    requires AllApproved(orgs, declared, cc, |orgs|, 0) && j < |orgs|
    ensures OrgApproved(orgs, cc, orgs[j].name)
  {
    assert SoundOrg(orgs[j], declared);
    ListedHasAnchor(orgs, j);
    var i := ApprovalPeerIsListed(orgs, orgs[j].name);
    assert SoundOrg(orgs[i], declared) && orgs[i].peers[0] in orgs[i].peers;
    assert Approver(orgs, declared, i, 0);
    assert ApprovedAt(cc, orgs[i].name, orgs[i].peers[0]);
  }

  /**
   reconcileChaincodes for one chaincode up to the commit; `creates` says that the commit Job
   is ensured, and `packageID` is the package in the status. That happens exactly when the
   channel is ready, every approver has approved and that package is not yet committed at the
   definition's sequence; on a channel that validation finds no fault with, every listed
   organization then shows an approval.
   */
  method ReconcileChaincode(
    orgs: seq<ChannelOrg>, declared: Declared, cc: Lifecycle, channelReady: bool, configured: bool)
    returns (creates: bool, packageID: string)
    ensures creates <==>
      channelReady && configured && AllApproved(orgs, declared, cc, |orgs|, 0) && SomeApprover(orgs, declared, |orgs|, 0) &&
      cc.committed(packageID) != Some(cc.sequence)
    ensures channelReady && configured ==> FirstPackage(orgs, declared, cc, |orgs|, 0, packageID)
    ensures creates ==> packageID != "" && cc.hasOrderer
    ensures creates && Sound(orgs, declared) && Trimmed(orgs) ==>
      forall j :: 0 <= j < |orgs| ==> OrgApproved(orgs, cc, orgs[j].name)
  {
    var c := Counts(0, 0, "");
    if configured && channelReady {
      c := CountApprovals(orgs, declared, cc);
    }
    var approvedReady := c.desired > 0 && c.ready >= c.desired;
    if !configured || !approvedReady || c.packageID == "" || !cc.hasOrderer {
      return false, c.packageID;
    }
    if Sound(orgs, declared) && Trimmed(orgs) {
      EveryOrgApproved(orgs, declared, cc);
    }
    return cc.committed(c.packageID) != Some(cc.sequence), c.packageID;
  }
}
