/**
 Topology validation as the precondition of rendering
 (internal/controller/fabricnetwork_topology.go against the renderers of fabricnetwork_chaincode.go
 and fabricnetwork_channel.go): validators and renderers are separate loops over the same spec,
 and what the validators let through never makes a renderer fail.
 */
module TopologyRendering {
  import opened Wrappers
  import opened Whitespace

  // ------------------------------------------------------------------------- orderer consensus

  datatype Group = Group(consensus: string, instances: nat)
  datatype Org = Org(name: string, msp: string, orderers: seq<Group>)

  const BFT := "BFT"

  /** Group g of organization o, as a position in the spec. */
  predicate At(orgs: seq<Org>, o: nat, g: nat) {
    o < |orgs| && g < |orgs[o].orderers|
  }

  /** Some group up to position (o, g) asks for an instance. */
  ghost predicate SomeInstance(orgs: seq<Org>, o: nat, g: nat) {
    exists p: nat, h: nat :: Before(p, h, o, g) && At(orgs, p, h) && orgs[p].orderers[h].instances > 0
  }

  ghost predicate BFTNeedsV3(orgs: seq<Org>, isV3: bool, o: nat, g: nat) {
    forall p: nat, h: nat :: Before(p, h, o, g) && At(orgs, p, h) ==> orgs[p].orderers[h].consensus != BFT || isV3
  }

  ghost predicate TypesIn(orgs: seq<Org>, types: set<string>, o: nat, g: nat) {
    forall p: nat, h: nat :: Before(p, h, o, g) && At(orgs, p, h) ==> orgs[p].orderers[h].consensus in types
  }

  predicate Before(p: nat, h: nat, o: nat, g: nat) {
    p < o || (p == o && h < g)
  }

  /** One consensus type throughout, BFT only on Fabric 3, and at least one instance. */
  ghost predicate SoundOrderers(orgs: seq<Org>, isV3: bool) {
    (exists o: nat, g: nat :: At(orgs, o, g) && orgs[o].orderers[g].instances > 0) &&
    (forall o: nat, g: nat :: At(orgs, o, g) && orgs[o].orderers[g].consensus == "BFT" ==> isV3) &&
    (forall o: nat, g: nat, p: nat, h: nat :: At(orgs, o, g) && At(orgs, p, h) ==>
      orgs[o].orderers[g].consensus == orgs[p].orderers[h].consensus)
  }

  /** What the validator has collected when it is through. */
  lemma SoundByCollection(orgs: seq<Org>, isV3: bool, types: set<string>)
    requires TypesIn(orgs, types, |orgs|, 0) && forall t <- types :: GroupWith(orgs, t)
    ensures SoundOrderers(orgs, isV3) <==> SomeInstance(orgs, |orgs|, 0) && BFTNeedsV3(orgs, isV3, |orgs|, 0) && |types| <= 1
  {
    assert forall o: nat, g: nat :: At(orgs, o, g) ==> Before(o, g, |orgs|, 0);
    if |types| <= 1 {
      forall s, t | s in types && t in types
        ensures s == t
      {
        assert |types - {s}| == 0;
      }
    }
    if SoundOrderers(orgs, isV3) && types != {} {
      var s :| s in types;
      var o: nat, g: nat :| At(orgs, o, g) && orgs[o].orderers[g].consensus == s;
      forall t <- types
        ensures t == s
      {
        var p: nat, h: nat :| At(orgs, p, h) && orgs[p].orderers[h].consensus == t;
      }
      assert types == {s};
    }
  }

  lemma NextGroup(orgs: seq<Org>, o: nat, g: nat, isV3: bool, types: set<string>)
    requires At(orgs, o, g)
    ensures SomeInstance(orgs, o, g + 1) <==> SomeInstance(orgs, o, g) || orgs[o].orderers[g].instances > 0
    ensures BFTNeedsV3(orgs, isV3, o, g + 1) <==> BFTNeedsV3(orgs, isV3, o, g) && (orgs[o].orderers[g].consensus != BFT || isV3)
    ensures TypesIn(orgs, types, o, g) ==> TypesIn(orgs, types + {orgs[o].orderers[g].consensus}, o, g + 1)
  {
    assert Before(o, g, o, g + 1);
    assert forall p: nat, h: nat :: Before(p, h, o, g + 1) <==> Before(p, h, o, g) || (p == o && h == g);
  }

  lemma NextOrg(orgs: seq<Org>, o: nat, isV3: bool, types: set<string>)
    requires o < |orgs|
    ensures SomeInstance(orgs, o + 1, 0) <==> SomeInstance(orgs, o, |orgs[o].orderers|)
    ensures BFTNeedsV3(orgs, isV3, o + 1, 0) <==> BFTNeedsV3(orgs, isV3, o, |orgs[o].orderers|)
    ensures TypesIn(orgs, types, o + 1, 0) <==> TypesIn(orgs, types, o, |orgs[o].orderers|)
  {
    assert forall p: nat, h: nat :: At(orgs, p, h) ==> (Before(p, h, o + 1, 0) <==> Before(p, h, o, |orgs[o].orderers|));
  }

  /** The schema demands a name; the validator passes over organizations without one. */
  predicate Named(orgs: seq<Org>) {
    forall i :: 0 <= i < |orgs| ==> Trim(orgs[i].name) != ""
  }

  /** The orderer part of validateFabricNetworkTopology and validateOrgOrdererConsensus. */
  method ValidateOrderers(orgs: seq<Org>, isV3: bool) returns (problems: seq<string>)
    ensures Named(orgs) ==> (problems == [] <==> SoundOrderers(orgs, isV3))
  {
    problems := [];
    var count: nat, types: set<string> := 0, {};
    for o := 0 to |orgs|
      invariant forall t <- types :: GroupWith(orgs, t)
      invariant Named(orgs) ==> (problems == [] <==> BFTNeedsV3(orgs, isV3, o, 0))
      invariant Named(orgs) ==> TypesIn(orgs, types, o, 0) && (count > 0 <==> SomeInstance(orgs, o, 0))
    {
      if Trim(orgs[o].name) == "" {
        continue;
      }
      for g := 0 to |orgs[o].orderers|
        invariant forall t <- types :: GroupWith(orgs, t)
        invariant Named(orgs) ==> (problems == [] <==> BFTNeedsV3(orgs, isV3, o, g))
        invariant Named(orgs) ==> TypesIn(orgs, types, o, g) && (count > 0 <==> SomeInstance(orgs, o, g))
      {
        var group := orgs[o].orderers[g];
        NextGroup(orgs, o, g, isV3, types);
        assert GroupWith(orgs, group.consensus) by { assert At(orgs, o, g); }
        count, types := count + group.instances, types + {group.consensus};
        if group.consensus == BFT && !isV3 {
          problems := problems + ["orderer type requires Fabric 3.x"];
        }
      }
      NextOrg(orgs, o, isV3, types);
    }
    if Named(orgs) {
      SoundByCollection(orgs, isV3, types);
    }
    if count == 0 {
      problems := problems + ["at least one orderer instance is required"];
    }
    if |types| > 1 {
      problems := problems + ["orderer consensus types must match across all orderer groups"];
    }
  }

  ghost predicate GroupWith(orgs: seq<Org>, consensus: string) {
    exists o: nat, g: nat :: At(orgs, o, g) && orgs[o].orderers[g].consensus == consensus
  }

  /** Some group before position (o, g) asks for instances of this type. */
  ghost predicate UsedBefore(orgs: seq<Org>, consensus: string, o: nat, g: nat) {
    exists p: nat, h: nat :: Before(p, h, o, g) && At(orgs, p, h) &&
      orgs[p].orderers[h].instances > 0 && orgs[p].orderers[h].consensus == consensus
  }

  ghost predicate Used(orgs: seq<Org>, consensus: string) {
    UsedBefore(orgs, consensus, |orgs|, 0)
  }

  lemma UsedNext(orgs: seq<Org>, o: nat, g: nat)
    requires At(orgs, o, g)
    ensures forall c :: UsedBefore(orgs, c, o, g + 1) <==>
      UsedBefore(orgs, c, o, g) || (orgs[o].orderers[g].instances > 0 && orgs[o].orderers[g].consensus == c)
  {
    forall c
      ensures UsedBefore(orgs, c, o, g + 1) <==>
        UsedBefore(orgs, c, o, g) || (orgs[o].orderers[g].instances > 0 && orgs[o].orderers[g].consensus == c)
    {
      if UsedBefore(orgs, c, o, g) {
        var p: nat, h: nat :| Before(p, h, o, g) && At(orgs, p, h) &&
          orgs[p].orderers[h].instances > 0 && orgs[p].orderers[h].consensus == c;
        assert Before(p, h, o, g + 1);
      }
      if UsedBefore(orgs, c, o, g + 1) {
        var p: nat, h: nat :| Before(p, h, o, g + 1) && At(orgs, p, h) &&
          orgs[p].orderers[h].instances > 0 && orgs[p].orderers[h].consensus == c;
        assert Before(p, h, o, g) || (p == o && h == g);
      }
      assert Before(o, g, o, g + 1);
    }
  }

  lemma UsedNextOrg(orgs: seq<Org>, o: nat)
    requires o < |orgs|
    ensures forall c :: UsedBefore(orgs, c, o + 1, 0) <==> UsedBefore(orgs, c, o, |orgs[o].orderers|)
  {
    assert forall p: nat, h: nat :: At(orgs, p, h) ==> (Before(p, h, o + 1, 0) <==> Before(p, h, o, |orgs[o].orderers|));
  }

  /** desiredOrdererInstances: one entry per instance, with its consensus type. */
  method DesiredOrdererInstances(orgs: seq<Org>) returns (instances: seq<string>)
    ensures forall c :: c in instances <==> Used(orgs, c)
  {
    instances := [];
    for o := 0 to |orgs|
      invariant forall c :: c in instances <==> UsedBefore(orgs, c, o, 0)
    {
      for g := 0 to |orgs[o].orderers|
        invariant forall c :: c in instances <==> UsedBefore(orgs, c, o, g)
      {
        UsedNext(orgs, o, g);
        var consensus := orgs[o].orderers[g].consensus;
        for i := 0 to orgs[o].orderers[g].instances
          invariant forall c :: c in instances <==> UsedBefore(orgs, c, o, g) || (i > 0 && consensus == c)
        {
          instances := instances + [consensus];
        }
      }
      UsedNextOrg(orgs, o);
    }
  }

  /** ordererConsensusForConfigtx. */
  method ConsensusForConfigtx(instances: seq<string>) returns (r: Result<string, string>)
    ensures r.Ok? <==> instances != [] && forall i :: 0 <= i < |instances| ==> instances[i] == instances[0]
    ensures r.Ok? ==> r.value == instances[0]
  {
    if instances == [] {
      return Err("at least one orderer is required");
    }
    for i := 1 to |instances|
      invariant forall k :: 0 <= k < i ==> instances[k] == instances[0]
    {
      if instances[i] != instances[0] {
        return Err("orderer consensus types must match across all orderer groups");
      }
    }
    return Ok(instances[0]);
  }

  /** The orderers that are asked for have this one type, and Fabric supports it. */
  ghost predicate Configurable(orgs: seq<Org>, isV3: bool, consensus: string) {
    Used(orgs, consensus) && (forall c :: Used(orgs, c) ==> c == consensus) && (consensus == "BFT" ==> isV3)
  }

  /** The checks of buildConfigtxYAML. */
  method ConfigtxConsensus(orgs: seq<Org>, isV3: bool) returns (r: Result<string, string>)
    ensures r.Ok? <==> exists c :: Configurable(orgs, isV3, c)
    ensures r.Ok? ==> Configurable(orgs, isV3, r.value)
  {
    var instances := DesiredOrdererInstances(orgs);
    if instances == [] {
      return Err("channel requires at least one orderer");
    }
    assert instances[0] in instances;
    assert Used(orgs, instances[0]);
    r := ConsensusForConfigtx(instances);
    if r.Err? {
      var i :| 0 <= i < |instances| && instances[i] != instances[0];
      assert instances[i] in instances;
      assert Used(orgs, instances[i]);
      return;
    }
    assert forall c :: Used(orgs, c) ==> c == instances[0];
    if r.value == BFT && !isV3 {
      return Err("BFT orderer consensus requires Fabric v3");
    }
    assert Configurable(orgs, isV3, r.value);
  }

  /** A validated network passes those checks, for every channel. */
  lemma SoundIsConfigurable(orgs: seq<Org>, isV3: bool)
    requires SoundOrderers(orgs, isV3)
    ensures exists c :: Configurable(orgs, isV3, c)
  {
    var o: nat, g: nat :| At(orgs, o, g) && orgs[o].orderers[g].instances > 0;
    assert Before(o, g, |orgs|, 0);
    assert Configurable(orgs, isV3, orgs[o].orderers[g].consensus);
  }

  // ------------------------------------------------------------------------ private data collections

  /** Peer counts are not negative (the custom resource's schema). */
  datatype Collection = Collection(
    name: string, policy: string, orgNames: seq<string>, required: Option<nat>, max: Option<nat>,
    signaturePolicy: string, channelPolicy: string)

  datatype Rendered = Rendered(name: string, policy: string, required: nat, max: nat)

  /** Peers of the listed organizations in the channel; an organization listed twice counts twice. */
  function Authorized(orgNames: seq<string>, counts: map<string, nat>): nat {
    if orgNames == [] then 0
    else
      var name := Trim(orgNames[|orgNames| - 1]);
      Authorized(orgNames[..|orgNames| - 1], counts) + if name in counts then counts[name] else 0
  }

  function Available(c: Collection, counts: map<string, nat>): nat {
    var authorized := Authorized(c.orgNames, counts);
    if authorized > 0 then authorized - 1 else 0
  }

  function MaxPeers(c: Collection, counts: map<string, nat>): nat {
    if c.max.Some? then c.max.value else Available(c, counts)
  }

  function RequiredPeers(c: Collection): nat {
    if c.required.Some? then c.required.value else 0
  }

  predicate SoundCollection(c: Collection, known: set<string>, counts: map<string, nat>) {
    Trim(c.name) != "" && Trim(c.name)[0] != '_' && c.orgNames != [] &&
    (forall i :: 0 <= i < |c.orgNames| ==> Trim(c.orgNames[i]) in known && Trim(c.orgNames[i]) in counts) &&
    RequiredPeers(c) <= MaxPeers(c, counts) <= Available(c, counts) &&
    (Trim(c.signaturePolicy) == "" || Trim(c.channelPolicy) == "")
  }

  /** The loop over the organizations of one collection. */
  method AuthorizedPeers(c: Collection, known: set<string>, counts: map<string, nat>) returns (authorized: nat, problems: seq<string>)
    ensures problems == [] <==> forall i :: 0 <= i < |c.orgNames| ==> Trim(c.orgNames[i]) in known && Trim(c.orgNames[i]) in counts
    ensures problems == [] ==> authorized == Authorized(c.orgNames, counts)
  {
    authorized, problems := 0, [];
    for i := 0 to |c.orgNames|
      invariant problems == [] <==> forall k :: 0 <= k < i ==> Trim(c.orgNames[k]) in known && Trim(c.orgNames[k]) in counts
      invariant problems == [] ==> authorized == Authorized(c.orgNames[..i], counts)
    {
      var name := Trim(c.orgNames[i]);
      assert c.orgNames[..i + 1][..i] == c.orgNames[..i];
      if name !in known {
        problems := problems + ["references unknown org " + name];
        continue;
      }
      if name !in counts {
        problems := problems + ["references org outside channel " + name];
        continue;
      }
      authorized := authorized + counts[name];
    }
    assert c.orgNames[..|c.orgNames|] == c.orgNames;
  }

  /** The body of validateChaincodePrivateDataTopology for one collection. */
  method ValidateCollection(c: Collection, seen: set<string>, known: set<string>, counts: map<string, nat>)
    returns (problems: seq<string>)
    ensures problems == [] <==> SoundCollection(c, known, counts) && Trim(c.name) !in seen
  {
    var name := Trim(c.name);
    if name == "" {
      return ["private data collection name is required"];
    }
    var authorized: nat;
    authorized, problems := AuthorizedPeers(c, known, counts);
    if name[0] == '_' {
      problems := problems + ["private data collection must not start with _"];
    }
    if name in seen {
      problems := problems + ["private data collection is declared more than once"];
    }
    if c.orgNames == [] {
      problems := problems + ["private data collection must include at least one org"];
    }
    var available := if authorized > 0 then authorized - 1 else 0;
    var most := available;
    if c.max.Some? {
      most := c.max.value;
      if most > available {
        problems := problems + ["maxPeerCount exceeds available authorized peers"];
      }
    }
    var required: nat := 0;
    if c.required.Some? {
      required := c.required.value;
    }
    if required > most {
      problems := problems + ["requiredPeerCount exceeds maxPeerCount"];
    }
    if Trim(c.signaturePolicy) != "" && Trim(c.channelPolicy) != "" {
      problems := problems + ["must use only one endorsementPolicy field"];
    }
  }

  /** validateChaincodePrivateDataTopology: exactly sound collections with distinct names. */
  method ValidatePrivateData(cs: seq<Collection>, known: set<string>, counts: map<string, nat>) returns (problems: seq<string>)
    ensures problems == [] <==>
      (forall i :: 0 <= i < |cs| ==> SoundCollection(cs[i], known, counts)) &&
      (forall i, j :: 0 <= i < j < |cs| ==> Trim(cs[i].name) != Trim(cs[j].name))
  {
    problems := [];
    var seen: set<string> := {};
    for n := 0 to |cs|
      invariant problems == [] ==> forall name :: name in seen <==> exists k :: 0 <= k < n && Trim(cs[k].name) == name
      invariant problems == [] <==>
        (forall i :: 0 <= i < n ==> SoundCollection(cs[i], known, counts)) &&
        (forall i, j :: 0 <= i < j < n ==> Trim(cs[i].name) != Trim(cs[j].name))
    {
      var found := ValidateCollection(cs[n], seen, known, counts);
      problems := problems + found;
      if Trim(cs[n].name) != "" {
        seen := seen + {Trim(cs[n].name)};
      }
    }
  }

  function MemberOf(msp: string): string {
    "'" + msp + ".member'"
  }

  /** strings.Join of the member expressions with commas. */
  function Members(orgNames: seq<string>, msps: map<string, string>): string
    requires forall i :: 0 <= i < |orgNames| ==> Trim(orgNames[i]) in msps
  {
    if orgNames == [] then ""
    else
      var init, last := orgNames[..|orgNames| - 1], MemberOf(msps[Trim(orgNames[|orgNames| - 1])]);
      if init == [] then last else Members(init, msps) + "," + last
  }

  predicate AllIn(orgNames: seq<string>, msps: map<string, string>) {
    forall i :: 0 <= i < |orgNames| ==> Trim(orgNames[i]) in msps
  }

  /** The collection as it is handed to Fabric: its own policy, or membership in any of its organizations. */
  ghost predicate RenderedAs(c: Collection, msps: map<string, string>, counts: map<string, nat>, r: Rendered) {
    r.name == c.name && r.required == RequiredPeers(c) && r.max == MaxPeers(c, counts) &&
    if Trim(c.policy) != "" then r.policy == Trim(c.policy)
    else AllIn(c.orgNames, msps) && r.policy == "OR(" + Members(c.orgNames, msps) + ")"
  }

  lemma MembersNext(orgNames: seq<string>, msps: map<string, string>, i: nat)
    requires i < |orgNames| && AllIn(orgNames[..i], msps) && Trim(orgNames[i]) in msps
    ensures AllIn(orgNames[..i + 1], msps)
    ensures Members(orgNames[..i + 1], msps) ==
            if i == 0 then MemberOf(msps[Trim(orgNames[0])])
            else Members(orgNames[..i], msps) + "," + MemberOf(msps[Trim(orgNames[i])])
  {
    assert orgNames[..i + 1][..i] == orgNames[..i] && orgNames[..i + 1][i] == orgNames[i];
  }

  /** The loop that collects the member expressions, and strings.Join. */
  method JoinMembers(orgNames: seq<string>, msps: map<string, string>) returns (r: Result<string, string>)
    ensures r.Ok? <==> AllIn(orgNames, msps)
    ensures r.Ok? ==> r.value == Members(orgNames, msps)
  {
    var joined := "";
    for i := 0 to |orgNames|
      invariant AllIn(orgNames[..i], msps) && joined == Members(orgNames[..i], msps)
    {
      var name := Trim(orgNames[i]);
      if name !in msps {
        return Err(name);
      }
      MembersNext(orgNames, msps, i);
      var member := MemberOf(msps[name]);
      joined := if i == 0 then member else joined + "," + member;
    }
    assert orgNames[..|orgNames|] == orgNames;
    return Ok(joined);
  }

  /** renderChaincodeCollection: fails only on an unknown organization, and then only without a policy of its own. */
  method RenderCollection(c: Collection, msps: map<string, string>, counts: map<string, nat>) returns (r: Result<Rendered, string>)
    ensures r.Ok? <==> Trim(c.policy) != "" || AllIn(c.orgNames, msps)
    ensures r.Ok? ==> RenderedAs(c, msps, counts, r.value)
    ensures SoundCollection(c, msps.Keys, counts) ==>
      r.Ok? && 0 <= r.value.required <= r.value.max <= Available(c, counts)
  {
    var policy := Trim(c.policy);
    if policy == "" {
      var members := JoinMembers(c.orgNames, msps);
      if members.Err? {
        return Err("private data collection references unknown org " + members.error);
      }
      policy := "OR(" + members.value + ")";
    }
    var authorized: nat := 0;
    for i := 0 to |c.orgNames|
      invariant authorized == Authorized(c.orgNames[..i], counts)
    {
      var name := Trim(c.orgNames[i]);
      assert c.orgNames[..i + 1][..i] == c.orgNames[..i];
      authorized := authorized + if name in counts then counts[name] else 0;
    }
    assert c.orgNames[..|c.orgNames|] == c.orgNames;
    var required: nat, most: nat := 0, if authorized > 0 then authorized - 1 else 0;
    if c.required.Some? {
      required := c.required.value;
    }
    if c.max.Some? {
      most := c.max.value;
    }
    return Ok(Rendered(c.name, policy, required, most));
  }

  // ---------------------------------------------------------------------------- CouchDB indexes

  datatype Index = Index(name: string, fields: seq<string>, collection: string, path: string)

  predicate SoundIndex(index: Index) {
    Trim(index.name) != "" && index.fields != [] && forall i :: 0 <= i < |index.fields| ==> Trim(index.fields[i]) != ""
  }

  predicate DistinctPaths(indexes: seq<Index>) {
    forall i, j :: 0 <= i < j < |indexes| ==> indexes[i].path != indexes[j].path
  }

  predicate KnownCollection(index: Index, collections: set<string>) {
    Trim(index.collection) != "" ==> Trim(index.collection) in collections
  }

  method ValidateIndex(index: Index, seen: set<string>, collections: set<string>) returns (problems: seq<string>)
    ensures problems == [] <==> SoundIndex(index) && KnownCollection(index, collections) && index.path !in seen
  {
    if Trim(index.name) == "" {
      return ["CouchDB index name is required"];
    }
    problems := BlankFields(index.fields);
    if index.fields == [] {
      problems := problems + ["CouchDB index must include at least one field"];
    }
    if Trim(index.collection) != "" && Trim(index.collection) !in collections {
      problems := problems + ["CouchDB index references unknown private data collection"];
    }
    if index.path in seen {
      problems := problems + ["CouchDB index package path is declared more than once"];
    }
  }

  ghost predicate Accepted(indexes: seq<Index>, collections: set<string>) {
    (forall i :: 0 <= i < |indexes| ==> SoundIndex(indexes[i]) && KnownCollection(indexes[i], collections)) &&
    DistinctPaths(indexes)
  }

  /** validateChaincodeCouchDBIndexes. */
  method ValidateIndexes(indexes: seq<Index>, collections: set<string>) returns (problems: seq<string>)
    ensures problems == [] <==> Accepted(indexes, collections)
  {
    problems := [];
    var seen: set<string> := {};
    for n := 0 to |indexes|
      invariant problems == [] ==> seen == Paths(indexes[..n])
      invariant problems == [] <==> Accepted(indexes[..n], collections)
    {
      var found := ValidateIndex(indexes[n], seen, collections);
      problems := problems + found;
      OneMorePath(indexes, n);
      OneMoreAccepted(indexes, n, collections);
      if Trim(indexes[n].name) != "" {
        seen := seen + {indexes[n].path};
      }
    }
    assert indexes[..|indexes|] == indexes;
  }

  lemma OneMoreAccepted(indexes: seq<Index>, n: nat, collections: set<string>)
    requires n < |indexes|
    ensures Accepted(indexes[..n + 1], collections) <==>
            Accepted(indexes[..n], collections) && SoundIndex(indexes[n]) && KnownCollection(indexes[n], collections) &&
            indexes[n].path !in Paths(indexes[..n])
  {
    OneMorePath(indexes, n);
    assert indexes[..n + 1] == indexes[..n] + [indexes[n]];
  }

  function Paths(indexes: seq<Index>): set<string> {
    set i | 0 <= i < |indexes| :: indexes[i].path
  }

  lemma OneMorePath(indexes: seq<Index>, n: nat)
    requires n < |indexes|
    ensures Paths(indexes[..n + 1]) == Paths(indexes[..n]) + {indexes[n].path}
    ensures DistinctPaths(indexes[..n + 1]) <==> DistinctPaths(indexes[..n]) && indexes[n].path !in Paths(indexes[..n])
  {
    var longer, shorter := indexes[..n + 1], indexes[..n];
    assert longer[n] == indexes[n] && forall i :: 0 <= i < n ==> longer[i] == shorter[i];
  }

  method BlankFields(fields: seq<string>) returns (problems: seq<string>)
    ensures problems == [] <==> forall i :: 0 <= i < |fields| ==> Trim(fields[i]) != ""
  {
    problems := [];
    for i := 0 to |fields|
      invariant problems == [] <==> forall k :: 0 <= k < i ==> Trim(fields[k]) != ""
    {
      if Trim(fields[i]) == "" {
        problems := problems + ["CouchDB index has an empty field"];
      }
    }
  }

  /** The checks on one index. */
  method CheckIndex(index: Index) returns (ok: bool)
    ensures ok <==> SoundIndex(index)
  {
    if Trim(index.name) == "" || index.fields == [] {
      return false;
    }
    var blank := BlankFields(index.fields);
    return blank == [];
  }

  ghost predicate AllSound(indexes: seq<Index>) {
    forall i :: 0 <= i < |indexes| ==> SoundIndex(indexes[i])
  }

  lemma OneMoreSound(indexes: seq<Index>, n: nat)
    requires n < |indexes|
    ensures AllSound(indexes[..n + 1]) <==> AllSound(indexes[..n]) && SoundIndex(indexes[n])
    ensures AllSound(indexes) ==> SoundIndex(indexes[n])
  {
    assert indexes[..n + 1] == indexes[..n] + [indexes[n]];
  }

  lemma RepeatedPath(indexes: seq<Index>, n: nat)
    requires n < |indexes| && indexes[n].path in Paths(indexes[..n])
    ensures !DistinctPaths(indexes)
  {
    var k :| 0 <= k < n && indexes[..n][k].path == indexes[n].path;
    assert indexes[k].path == indexes[n].path;
  }

  /** One file per index, under its path. */
  ghost predicate FilesOf(indexes: seq<Index>, files: map<string, Index>) {
    files.Keys == Paths(indexes) && forall i :: 0 <= i < |indexes| ==> indexes[i].path in files && files[indexes[i].path] == indexes[i]
  }

  lemma OneMoreFile(indexes: seq<Index>, n: nat, files: map<string, Index>)
    requires n < |indexes| && FilesOf(indexes[..n], files) && indexes[n].path !in files
    ensures FilesOf(indexes[..n + 1], files[indexes[n].path := indexes[n]])
  {
    OneMorePath(indexes, n);
    assert indexes[..n + 1] == indexes[..n] + [indexes[n]];
    forall i | 0 <= i < n
      ensures indexes[i].path in files && files[indexes[i].path] == indexes[i] && indexes[i].path != indexes[n].path
    {
      assert indexes[..n][i] == indexes[i];
    }
  }

  /** renderChaincodeCouchDBIndexes: one file per index, exactly for sound indexes with distinct paths. */
  method RenderIndexes(indexes: seq<Index>) returns (r: Result<map<string, Index>, string>)
    ensures r.Ok? <==> AllSound(indexes) && DistinctPaths(indexes)
    ensures r.Ok? ==> FilesOf(indexes, r.value)
  {
    var files: map<string, Index> := map[];
    for n := 0 to |indexes|
      invariant AllSound(indexes[..n]) && DistinctPaths(indexes[..n]) && FilesOf(indexes[..n], files)
    {
      OneMoreSound(indexes, n);
      OneMorePath(indexes, n);
      var ok := CheckIndex(indexes[n]);
      if !ok {
        return Err("CouchDB index without a name or fields, or with an empty field");
      }
      if indexes[n].path in files {
        RepeatedPath(indexes, n);
        return Err("duplicate CouchDB index package path");
      }
      OneMoreFile(indexes, n, files);
      files := files[indexes[n].path := indexes[n]];
    }
    assert indexes[..|indexes|] == indexes;
    return Ok(files);
  }

  // ----------------------------------------------------------------------------- the whole network

  /** One chaincode with the peers its channel gives each organization. */
  datatype Chaincode = Chaincode(collections: seq<Collection>, indexes: seq<Index>, counts: map<string, nat>)

  /** Exactly what the validator lets through. */
  ghost predicate SoundChaincode(cc: Chaincode, known: set<string>) {
    (forall i :: 0 <= i < |cc.collections| ==> SoundCollection(cc.collections[i], known, cc.counts)) &&
    (forall i, j :: 0 <= i < j < |cc.collections| ==> Trim(cc.collections[i].name) != Trim(cc.collections[j].name)) &&
    Accepted(cc.indexes, CollectionNames(cc))
  }

  function CollectionNames(cc: Chaincode): set<string> {
    set c <- cc.collections | Trim(c.name) != "" :: Trim(c.name)
  }

  method ValidateChaincode(cc: Chaincode, known: set<string>) returns (problems: seq<string>)
    ensures problems == [] <==> SoundChaincode(cc, known)
  {
    problems := ValidatePrivateData(cc.collections, known, cc.counts);
    var found := ValidateIndexes(cc.indexes, CollectionNames(cc));
    problems := problems + found;
  }

  /** The rendered parts of a chaincode package. */
  datatype Output = Output(collections: seq<Rendered>, files: map<string, Index>)

  ghost predicate OutputOf(cc: Chaincode, msps: map<string, string>, out: Output) {
    |out.collections| == |cc.collections| && FilesOf(cc.indexes, out.files) &&
    forall i :: 0 <= i < |cc.collections| ==> RenderedAs(cc.collections[i], msps, cc.counts, out.collections[i])
  }

  /** Exactly when every renderer succeeds. */
  ghost predicate Renderable(cc: Chaincode, msps: map<string, string>) {
    (forall i :: 0 <= i < |cc.collections| ==> Trim(cc.collections[i].policy) != "" || AllIn(cc.collections[i].orgNames, msps)) &&
    AllSound(cc.indexes) && DistinctPaths(cc.indexes)
  }

  method RenderChaincode(cc: Chaincode, msps: map<string, string>) returns (r: Result<Output, string>)
    ensures r.Ok? <==> Renderable(cc, msps)
    ensures r.Ok? ==> OutputOf(cc, msps, r.value)
  {
    var collections: seq<Rendered> := [];
    for i := 0 to |cc.collections|
      invariant |collections| == i
      invariant forall k :: 0 <= k < i ==> Trim(cc.collections[k].policy) != "" || AllIn(cc.collections[k].orgNames, msps)
      invariant forall k :: 0 <= k < i ==> RenderedAs(cc.collections[k], msps, cc.counts, collections[k])
    {
      var rendered := RenderCollection(cc.collections[i], msps, cc.counts);
      if rendered.Err? {
        return Err(rendered.error);
      }
      collections := collections + [rendered.value];
    }
    var files := RenderIndexes(cc.indexes);
    if files.Err? {
      return Err(files.error);
    }
    return Ok(Output(collections, files.value));
  }

  /** The validator's map of organizations: trimmed names, blank ones left out. */
  function KnownTo(orgs: seq<Org>): set<string> {
    set i | 0 <= i < |orgs| && Trim(orgs[i].name) != "" :: Trim(orgs[i].name)
  }

  /** The renderer's map of organizations (orgsByName): names as they are. */
  function MSPs(orgs: seq<Org>): (msps: map<string, string>)
    ensures forall name :: name in msps <==> exists i :: 0 <= i < |orgs| && orgs[i].name == name
  {
    if orgs == [] then map[] else MSPs(orgs[..|orgs| - 1])[orgs[|orgs| - 1].name := orgs[|orgs| - 1].msp]
  }

  /** On names without surrounding white space the two maps have the same keys, up to a blank name. */
  lemma KnownIsRendered(orgs: seq<Org>)
    requires forall i :: 0 <= i < |orgs| ==> Trim(orgs[i].name) == orgs[i].name
    ensures KnownTo(orgs) <= MSPs(orgs).Keys
  {
  }

  /** What the validators ask of the whole network. */
  ghost predicate SoundNetwork(orgs: seq<Org>, isV3: bool, chaincodes: seq<Chaincode>) {
    SoundOrderers(orgs, isV3) && forall k :: 0 <= k < |chaincodes| ==> SoundChaincode(chaincodes[k], KnownTo(orgs))
  }

  method ValidateNetwork(orgs: seq<Org>, isV3: bool, chaincodes: seq<Chaincode>) returns (problems: seq<string>)
    ensures Named(orgs) ==> (problems == [] <==> SoundNetwork(orgs, isV3, chaincodes))
  {
    problems := ValidateOrderers(orgs, isV3);
    for i := 0 to |chaincodes|
      invariant Named(orgs) ==> (problems == [] <==>
        SoundOrderers(orgs, isV3) && forall k :: 0 <= k < i ==> SoundChaincode(chaincodes[k], KnownTo(orgs)))
    {
      var found := ValidateChaincode(chaincodes[i], KnownTo(orgs));
      problems := problems + found;
    }
  }

  /** The renderers alone, whatever the network. */
  method RenderAll(orgs: seq<Org>, isV3: bool, chaincodes: seq<Chaincode>) returns (r: Result<(string, seq<Output>), string>)
    ensures r.Ok? <==>
      (exists c :: Configurable(orgs, isV3, c)) && forall k :: 0 <= k < |chaincodes| ==> Renderable(chaincodes[k], MSPs(orgs))
    ensures r.Ok? ==> Configurable(orgs, isV3, r.value.0) && |r.value.1| == |chaincodes|
    ensures r.Ok? ==> forall k :: 0 <= k < |chaincodes| ==> OutputOf(chaincodes[k], MSPs(orgs), r.value.1[k])
  {
    var consensus := ConfigtxConsensus(orgs, isV3);
    if consensus.Err? {
      return Err(consensus.error);
    }
    var outputs: seq<Output> := [];
    for i := 0 to |chaincodes|
      invariant |outputs| == i
      invariant forall k :: 0 <= k < i ==> Renderable(chaincodes[k], MSPs(orgs)) && OutputOf(chaincodes[k], MSPs(orgs), outputs[k])
    {
      var out := RenderChaincode(chaincodes[i], MSPs(orgs));
      if out.Err? {
        return Err(out.error);
      }
      outputs := outputs + [out.value];
    }
    return Ok((consensus.value, outputs));
  }

  /**
   Validation first, then every renderer: a network is rendered exactly if the validators find
   no fault with it, because no renderer fails on what they let through.
   */
  method RenderNetwork(orgs: seq<Org>, isV3: bool, chaincodes: seq<Chaincode>)
    returns (problems: seq<string>, r: Result<(string, seq<Output>), string>)
    requires Named(orgs) && forall i :: 0 <= i < |orgs| ==> Trim(orgs[i].name) == orgs[i].name
    ensures problems == [] <==> SoundNetwork(orgs, isV3, chaincodes)
    ensures r.Ok? <==> SoundNetwork(orgs, isV3, chaincodes)
    ensures r.Ok? ==> Configurable(orgs, isV3, r.value.0) && |r.value.1| == |chaincodes|
    ensures r.Ok? ==> forall k :: 0 <= k < |chaincodes| ==> OutputOf(chaincodes[k], MSPs(orgs), r.value.1[k])
  {
    problems := ValidateNetwork(orgs, isV3, chaincodes);
    if problems != [] {
      return problems, Err("invalid topology");
    }
    SoundIsConfigurable(orgs, isV3);
    KnownIsRendered(orgs);
    forall k | 0 <= k < |chaincodes|
      ensures Renderable(chaincodes[k], MSPs(orgs))
    {
      SoundIsRenderable(chaincodes[k], KnownTo(orgs), MSPs(orgs));
    }
    r := RenderAll(orgs, isV3, chaincodes);
  }

  lemma SoundIsRenderable(cc: Chaincode, known: set<string>, msps: map<string, string>)
    requires SoundChaincode(cc, known) && known <= msps.Keys
    ensures Renderable(cc, msps)
  {
    forall i | 0 <= i < |cc.collections|
      ensures AllIn(cc.collections[i].orgNames, msps)
    {
      assert SoundCollection(cc.collections[i], known, cc.counts);
    }
  }
}
