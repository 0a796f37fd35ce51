/**
 The nodes that an automatic Raft submission must check
 (internal/controller/fabricnetwork_raft_submission.go, raftSubmissionNodes): every current
 and desired consenter is resolved to a managed orderer instance of the admin organization.
 */
module SubmissionNodes {
  import opened Wrappers
  import opened Consenters
  import opened RaftPlan
  import opened RaftPlanLaws

  /** An orderer instance with the endpoint it advertises. */
  datatype Instance = Instance(org: string, name: string, host: string, port: nat)

  datatype TlsSecret = TlsSecret(serverCert: string, caCert: string)

  /** What the reconciler can see: instances in declaration order, TLS Secrets, the clock's verdict on certificates. */
  datatype Cluster = Cluster(instances: seq<Instance>, secrets: map<string, TlsSecret>, validNow: string -> bool)

  datatype Node = Node(name: string, current: bool, desired: bool)

  datatype Blocked =
    | Unmanaged(consenter: Consenter)
    | SecretUnreadable(name: string)
    | CertificateMismatch(name: string)
    | CertificateNotValidNow(name: string)
    | SourceNotRetained

  predicate Matches(org: string, instance: Instance, c: Consenter) {
    instance.org == org && instance.host == c.host && instance.port == c.port
  }

  /** The first instance that matches, or the number of instances. */
  function FirstMatch(org: string, instances: seq<Instance>, c: Consenter): (i: nat)
    ensures i <= |instances|
    ensures i < |instances| ==> Matches(org, instances[i], c)
    ensures forall j :: 0 <= j < i ==> !Matches(org, instances[j], c)
  {
    if instances == [] || Matches(org, instances[0], c) then 0
    else
      var rest := FirstMatch(org, instances[1..], c);
      assert forall j :: 0 < j < |instances| ==> instances[j] == instances[1..][j - 1];
      1 + rest
  }

  /** The first matching instance carries exactly this consenter's certificate, valid now. */
  predicate Managed(cl: Cluster, org: string, c: Consenter) {
    var i := FirstMatch(org, cl.instances, c);
    i < |cl.instances| && cl.instances[i].name in cl.secrets &&
    (var secret := cl.secrets[cl.instances[i].name];
     secret.serverCert == c.serverCert == c.clientCert && secret.caCert != "" && cl.validNow(c.serverCert))
  }

  /** For the first instance of the organization at the consenter's endpoint: managed means that its Secret carries the very certificate. */
  lemma ManagedExactly(cl: Cluster, org: string, c: Consenter, k: nat)
    requires k < |cl.instances| && cl.instances[k].org == org && cl.instances[k].host == c.host && cl.instances[k].port == c.port
    requires forall j :: 0 <= j < k ==>
      !(cl.instances[j].org == org && cl.instances[j].host == c.host && cl.instances[j].port == c.port)
    ensures NameOf(cl, org, c) == cl.instances[k].name
    ensures Managed(cl, org, c) <==>
      cl.instances[k].name in cl.secrets && cl.secrets[cl.instances[k].name].serverCert == c.serverCert &&
      cl.secrets[cl.instances[k].name].serverCert == c.clientCert && cl.secrets[cl.instances[k].name].caCert != "" &&
      cl.validNow(c.serverCert)
  {
    var i := FirstMatch(org, cl.instances, c);
    assert Matches(org, cl.instances[k], c);
  }

  function NameOf(cl: Cluster, org: string, c: Consenter): string {
    var i := FirstMatch(org, cl.instances, c);
    if i < |cl.instances| then cl.instances[i].name else ""
  }

  function Names(cl: Cluster, org: string, cs: seq<Consenter>): set<string> {
    set i | 0 <= i < |cs| :: NameOf(cl, org, cs[i])
  }

  function NodeNames(nodes: seq<Node>): set<string> {
    set i | 0 <= i < |nodes| :: nodes[i].name
  }

  predicate AllManaged(cl: Cluster, org: string, cs: seq<Consenter>) {
    forall i :: 0 <= i < |cs| ==> Managed(cl, org, cs[i])
  }

  predicate Distinct(nodes: seq<Node>) {
    forall i, j :: 0 <= i < j < |nodes| ==> nodes[i].name != nodes[j].name
  }

  predicate Flagged(nodes: seq<Node>, current: set<string>, desired: set<string>) {
    forall i :: 0 <= i < |nodes| ==>
      (nodes[i].current <==> nodes[i].name in current) && (nodes[i].desired <==> nodes[i].name in desired)
  }

  /** One node per instance name of the two lists, flagged exactly by membership. */
  ghost predicate Placed(cl: Cluster, org: string, current: seq<Consenter>, desired: seq<Consenter>, nodes: seq<Node>) {
    AllManaged(cl, org, current) && AllManaged(cl, org, desired) && Distinct(nodes) &&
    NodeNames(nodes) == Names(cl, org, current) + Names(cl, org, desired) &&
    Flagged(nodes, Names(cl, org, current), Names(cl, org, desired))
  }

  // ------------------------------------------------------------------------ order of the nodes

  function Listed(cl: Cluster, org: string, cs: seq<Consenter>): (names: seq<string>)
    ensures |names| == |cs|
  {
    seq(|cs|, i requires 0 <= i < |cs| => NameOf(cl, org, cs[i]))
  }

  function NameSeq(nodes: seq<Node>): (names: seq<string>)
    ensures |names| == |nodes|
  {
    seq(|nodes|, i requires 0 <= i < |nodes| => nodes[i].name)
  }

  /** Names in the order in which they are first met. */
  function Noted(met: seq<string>, names: seq<string>): seq<string> {
    if names == [] then met
    else
      var earlier, last := Noted(met, names[..|names| - 1]), names[|names| - 1];
      if last in earlier then earlier else earlier + [last]
  }

  /** The current consenters in their order, then those that are only desired. */
  function NodesOf(cl: Cluster, org: string, current: seq<Consenter>, desired: seq<Consenter>): seq<Node> {
    var names := Noted(Noted([], Listed(cl, org, current)), Listed(cl, org, desired));
    seq(|names|, i requires 0 <= i < |names| =>
      Node(names[i], names[i] in Names(cl, org, current), names[i] in Names(cl, org, desired)))
  }

  lemma NotedOneMore(cl: Cluster, org: string, met: seq<string>, cs: seq<Consenter>, k: nat, seen: seq<string>)
    requires k < |cs| && seen == Noted(met, Listed(cl, org, cs[..k]))
    ensures Noted(met, Listed(cl, org, cs[..k + 1])) ==
            if NameOf(cl, org, cs[k]) in seen then seen else seen + [NameOf(cl, org, cs[k])]
  {
    var names := Listed(cl, org, cs[..k + 1]);
    assert names[..k] == Listed(cl, org, cs[..k]) && names[k] == NameOf(cl, org, cs[k]);
  }

  lemma NameSeqHolds(nodes: seq<Node>, name: string)
    ensures name in NameSeq(nodes) <==> name in NodeNames(nodes)
  {
    if name in NodeNames(nodes) {
      var i :| 0 <= i < |nodes| && nodes[i].name == name;
      assert NameSeq(nodes)[i] == name;
    }
  }

  lemma NodesAreThose(
    cl: Cluster, org: string, current: seq<Consenter>, desired: seq<Consenter>, nodes: seq<Node>)
    requires NameSeq(nodes) == Noted(Noted([], Listed(cl, org, current)), Listed(cl, org, desired))
    requires Flagged(nodes, Names(cl, org, current), Names(cl, org, desired))
    ensures nodes == NodesOf(cl, org, current, desired)
  {
    forall i | 0 <= i < |nodes|
      ensures nodes[i] == NodesOf(cl, org, current, desired)[i]
    {
      assert NameSeq(nodes)[i] == nodes[i].name;
    }
  }

  // ------------------------------------------------------------------------------- the loops

  /** The index map kept beside the node list. */
  ghost predicate Indexes(byName: map<string, nat>, nodes: seq<Node>) {
    byName.Keys == NodeNames(nodes) && forall n <- byName :: byName[n] < |nodes| && nodes[byName[n]].name == n
  }

  /** The innermost loop: find the managed instance of one consenter, or say why there is none. */
  method Resolve(cl: Cluster, org: string, c: Consenter) returns (r: Result<string, Blocked>)
    ensures r.Ok? <==> Managed(cl, org, c)
    ensures r.Ok? ==> r.value == NameOf(cl, org, c)
    ensures r.Err? ==> r.error != SourceNotRetained
  {
    for k := 0 to |cl.instances|
      invariant forall j :: 0 <= j < k ==> !Matches(org, cl.instances[j], c)
    {
      var instance := cl.instances[k];
      if !Matches(org, instance, c) {
        continue;
      }
      assert FirstMatch(org, cl.instances, c) == k;
      if instance.name !in cl.secrets {
        return Err(SecretUnreadable(instance.name));
      }
      var secret := cl.secrets[instance.name];
      if secret.serverCert != c.serverCert || secret.serverCert != c.clientCert || secret.caCert == "" {
        return Err(CertificateMismatch(instance.name));
      }
      if !cl.validNow(c.serverCert) {
        return Err(CertificateNotValidNow(instance.name));
      }
      return Ok(instance.name);
    }
    return Err(Unmanaged(c));
  }

  function Flag(node: Node, second: bool): Node {
    if second then node.(desired := true) else node.(current := true)
  }

  lemma NamesAppend(cl: Cluster, org: string, cs: seq<Consenter>, c: Consenter)
    ensures Names(cl, org, cs + [c]) == Names(cl, org, cs) + {NameOf(cl, org, c)}
  {
    var all := cs + [c];
    assert all[|cs|] == c;
    forall n | n in Names(cl, org, cs)
      ensures n in Names(cl, org, all)
    {
      var i :| 0 <= i < |cs| && NameOf(cl, org, cs[i]) == n;
      assert all[i] == cs[i];
    }
  }

  lemma NodeNamesAppend(nodes: seq<Node>, node: Node)
    ensures NodeNames(nodes + [node]) == NodeNames(nodes) + {node.name}
  {
    var all := nodes + [node];
    assert all[|nodes|] == node;
    forall n | n in NodeNames(nodes)
      ensures n in NodeNames(all)
    {
      var i :| 0 <= i < |nodes| && nodes[i].name == n;
      assert all[i] == nodes[i];
    }
  }

  /** One node per name of the two sets, flagged by membership, with the index map beside. */
  ghost predicate Held(nodes: seq<Node>, byName: map<string, nat>, current: set<string>, desired: set<string>) {
    Distinct(nodes) && Indexes(byName, nodes) && Flagged(nodes, current, desired) && NodeNames(nodes) == current + desired
  }

  /** A new node for a new name. */
  method NodeFor(name: string, nodes: seq<Node>, byName: map<string, nat>, ghost current: set<string>, ghost desired: set<string>)
    returns (nodes': seq<Node>, byName': map<string, nat>)
    requires Held(nodes, byName, current, desired)
    ensures Distinct(nodes') && Indexes(byName', nodes') && Flagged(nodes', current, desired)
    ensures NodeNames(nodes') == current + desired + {name} && name in byName'
    ensures NameSeq(nodes') == if name in NameSeq(nodes) then NameSeq(nodes) else NameSeq(nodes) + [name]
  {
    nodes', byName' := nodes, byName;
    NameSeqHolds(nodes, name);
    if name !in byName {
      NodeAdded(nodes, name, current, desired);
      IndexAdded(byName, nodes, name);
      NameSeqAppend(nodes, name);
      nodes', byName' := nodes + [Node(name, false, false)], byName[name := |nodes|];
    }
  }

  lemma NameSeqAppend(nodes: seq<Node>, name: string)
    ensures NameSeq(nodes + [Node(name, false, false)]) == NameSeq(nodes) + [name]
  {
  }

  lemma NameSeqKept(nodes: seq<Node>, index: nat, second: bool)
    requires index < |nodes|
    ensures NameSeq(nodes[index := Flag(nodes[index], second)]) == NameSeq(nodes)
  {
  }

  /** The loop body: a new node for a new name, and one flag set in place. */
  method Place(name: string, second: bool, nodes: seq<Node>, byName: map<string, nat>,
               ghost current: set<string>, ghost desired: set<string>)
    returns (nodes': seq<Node>, byName': map<string, nat>)
    requires Held(nodes, byName, current, desired)
    ensures !second ==> Held(nodes', byName', current + {name}, desired)
    ensures second ==> Held(nodes', byName', current, desired + {name})
    ensures NameSeq(nodes') == if name in NameSeq(nodes) then NameSeq(nodes) else NameSeq(nodes) + [name]
  {
    nodes', byName' := NodeFor(name, nodes, byName, current, desired);
    var index := byName'[name];
    FlagSet(nodes', index, second, current, desired);
    IndexKept(byName', nodes', index, second);
    NameSeqKept(nodes', index, second);
    SameUnion(current, desired, name);
    nodes' := nodes'[index := Flag(nodes'[index], second)];
  }

  lemma SameUnion(current: set<string>, desired: set<string>, name: string)
    ensures current + desired + {name} == (current + {name}) + desired == current + (desired + {name})
  {
  }

  lemma IndexAdded(byName: map<string, nat>, nodes: seq<Node>, name: string)
    requires Indexes(byName, nodes) && name !in byName
    ensures Indexes(byName[name := |nodes|], nodes + [Node(name, false, false)])
  {
    NodeNamesAppend(nodes, Node(name, false, false));
  }

  lemma IndexKept(byName: map<string, nat>, nodes: seq<Node>, index: nat, second: bool)
    requires Indexes(byName, nodes) && index < |nodes|
    ensures Indexes(byName, nodes[index := Flag(nodes[index], second)])
  {
    var marked := nodes[index := Flag(nodes[index], second)];
    assert forall i :: 0 <= i < |nodes| ==> marked[i].name == nodes[i].name;
    assert NodeNames(marked) == NodeNames(nodes);
  }

  lemma NodeAdded(nodes: seq<Node>, name: string, current: set<string>, desired: set<string>)
    requires Distinct(nodes) && Flagged(nodes, current, desired) && name !in NodeNames(nodes)
    requires NodeNames(nodes) == current + desired
    ensures var grown := nodes + [Node(name, false, false)];
            Distinct(grown) && Flagged(grown, current, desired) && NodeNames(grown) == NodeNames(nodes) + {name}
  {
    var grown := nodes + [Node(name, false, false)];
    NodeNamesAppend(nodes, Node(name, false, false));
    forall i | 0 <= i < |nodes|
      ensures grown[i] == nodes[i] && nodes[i].name != name
    {
      assert nodes[i].name in NodeNames(nodes);
    }
  }

  lemma FlagSet(nodes: seq<Node>, index: nat, second: bool, current: set<string>, desired: set<string>)
    requires index < |nodes| && Distinct(nodes) && Flagged(nodes, current, desired)
    ensures var marked := nodes[index := Flag(nodes[index], second)];
            Distinct(marked) && NodeNames(marked) == NodeNames(nodes) &&
            (!second ==> Flagged(marked, current + {nodes[index].name}, desired)) &&
            (second ==> Flagged(marked, current, desired + {nodes[index].name}))
  {
    var marked := nodes[index := Flag(nodes[index], second)];
    assert forall i :: 0 <= i < |nodes| ==> marked[i].name == nodes[i].name;
    assert forall i :: 0 <= i < |nodes| && i != index ==> nodes[i].name != nodes[index].name;
  }

  /** One of the two outer loops; the second one starts from the nodes of the first. */
  method PlaceAll(cl: Cluster, org: string, cs: seq<Consenter>, second: bool, nodes: seq<Node>, byName: map<string, nat>,
                  ghost current: set<string>)
    returns (r: Result<(seq<Node>, map<string, nat>), Blocked>)
    requires Held(nodes, byName, current, {}) && (!second ==> current == {})
    ensures r.Ok? <==> AllManaged(cl, org, cs)
    ensures r.Ok? && !second ==> Held(r.value.0, r.value.1, Names(cl, org, cs), {})
    ensures r.Ok? && second ==> Held(r.value.0, r.value.1, current, Names(cl, org, cs))
    ensures r.Ok? ==> NameSeq(r.value.0) == Noted(NameSeq(nodes), Listed(cl, org, cs))
  {
    var nodes', byName' := nodes, byName;
    assert Names(cl, org, cs[..0]) == {};
    for k := 0 to |cs|
      invariant AllManaged(cl, org, cs[..k])
      invariant second ==> Held(nodes', byName', current, Names(cl, org, cs[..k]))
      invariant !second ==> Held(nodes', byName', Names(cl, org, cs[..k]), {})
      invariant NameSeq(nodes') == Noted(NameSeq(nodes), Listed(cl, org, cs[..k]))
    {
      var name := Resolve(cl, org, cs[k]);
      if name.Err? {
        assert !Managed(cl, org, cs[k]);
        return Err(name.error);
      }
      NamesPrefix(cl, org, cs, k);
      NotedOneMore(cl, org, NameSeq(nodes), cs, k, NameSeq(nodes'));
      if second {
        nodes', byName' := Place(name.value, true, nodes', byName', current, Names(cl, org, cs[..k]));
      } else {
        nodes', byName' := Place(name.value, false, nodes', byName', Names(cl, org, cs[..k]), {});
      }
    }
    assert cs[..|cs|] == cs;
    return Ok((nodes', byName'));
  }

  lemma NamesPrefix(cl: Cluster, org: string, cs: seq<Consenter>, k: nat)
    requires k < |cs| && AllManaged(cl, org, cs[..k]) && Managed(cl, org, cs[k])
    ensures AllManaged(cl, org, cs[..k + 1])
    ensures Names(cl, org, cs[..k + 1]) == Names(cl, org, cs[..k]) + {NameOf(cl, org, cs[k])}
  {
    assert cs[..k + 1] == cs[..k] + [cs[k]];
    NamesAppend(cl, org, cs[..k], cs[k]);
  }

  /** The last loop: is the config-fetch source a node with both flags? */
  method SourceIsRetained(nodes: seq<Node>, source: string) returns (retained: bool)
    ensures retained <==> Node(source, true, true) in nodes
  {
    retained := false;
    for k := 0 to |nodes|
      invariant retained <==> Node(source, true, true) in nodes[..k]
    {
      assert nodes[..k + 1] == nodes[..k] + [nodes[k]];
      if nodes[k].name == source && nodes[k].current && nodes[k].desired {
        retained := true;
      }
    }
    assert nodes[..|nodes|] == nodes;
  }

  /** raftSubmissionNodes: succeeds exactly when every consenter is managed and the source stays a consenter. */
  method RaftSubmissionNodes(cl: Cluster, org: string, source: string, current: seq<Consenter>, desired: seq<Consenter>)
    returns (r: Result<seq<Node>, Blocked>)
    ensures r.Ok? <==> AllManaged(cl, org, current) && AllManaged(cl, org, desired) &&
                       source in Names(cl, org, current) && source in Names(cl, org, desired)
    ensures r.Ok? ==> Placed(cl, org, current, desired, r.value)
    ensures r.Ok? ==> Node(source, true, true) in r.value
    ensures r.Ok? ==> r.value == NodesOf(cl, org, current, desired)
  {
    var first := PlaceAll(cl, org, current, false, [], map[], {});
    if first.Err? {
      return Err(first.error);
    }
    var both := PlaceAll(cl, org, desired, true, first.value.0, first.value.1, Names(cl, org, current));
    if both.Err? {
      return Err(both.error);
    }
    var nodes := both.value.0;
    var retained := SourceIsRetained(nodes, source);
    SourceRetained(nodes, Names(cl, org, current), Names(cl, org, desired), source);
    if !retained {
      return Err(SourceNotRetained);
    }
    NodesAreThose(cl, org, current, desired, nodes);
    return Ok(nodes);
  }

  lemma SourceRetained(nodes: seq<Node>, current: set<string>, desired: set<string>, source: string)
    requires Flagged(nodes, current, desired) && NodeNames(nodes) == current + desired
    ensures Node(source, true, true) in nodes <==> source in current && source in desired
  {
    if source in current && source in desired {
      assert source in NodeNames(nodes);
      var i :| 0 <= i < |nodes| && nodes[i].name == source;
      assert nodes[i] == Node(source, true, true);
    }
  }

  // ------------------------------------------------------------------ nodes of a validated plan

  /** Instance names are unique within the admin organization. */
  predicate UniqueNames(cl: Cluster, org: string) {
    forall i, j :: 0 <= i < j < |cl.instances| && cl.instances[i].org == org && cl.instances[j].org == org ==>
      cl.instances[i].name != cl.instances[j].name
  }

  /** Two managed consenters under one name are the same consenter. */
  lemma SameNameSameConsenter(cl: Cluster, org: string, c: Consenter, d: Consenter)
    requires UniqueNames(cl, org) && Managed(cl, org, c) && Managed(cl, org, d)
    requires NameOf(cl, org, c) == NameOf(cl, org, d)
    ensures c == d
  {
    var i, j := FirstMatch(org, cl.instances, c), FirstMatch(org, cl.instances, d);
    assert i == j;
  }

  /** A name stands in a list exactly when its consenter does. */
  lemma NamedIsMember(cl: Cluster, org: string, cs: seq<Consenter>, c: Consenter)
    requires UniqueNames(cl, org) && Managed(cl, org, c) && AllManaged(cl, org, cs)
    ensures NameOf(cl, org, c) in Names(cl, org, cs) <==> c in cs
  {
    if NameOf(cl, org, c) in Names(cl, org, cs) {
      var i :| 0 <= i < |cs| && NameOf(cl, org, cs[i]) == NameOf(cl, org, c);
      SameNameSameConsenter(cl, org, cs[i], c);
    }
  }

  /** The consenter behind a node. */
  lemma Behind(cl: Cluster, org: string, current: seq<Consenter>, desired: seq<Consenter>, nodes: seq<Node>, i: nat)
    returns (c: Consenter)
    requires UniqueNames(cl, org) && Placed(cl, org, current, desired, nodes) && i < |nodes|
    ensures Managed(cl, org, c) && NameOf(cl, org, c) == nodes[i].name
    ensures nodes[i].current <==> c in current
    ensures nodes[i].desired <==> c in desired
    ensures c in current || c in desired
  {
    assert nodes[i].name in NodeNames(nodes);
    if nodes[i].current {
      var k :| 0 <= k < |current| && NameOf(cl, org, current[k]) == nodes[i].name;
      c := current[k];
    } else {
      var k :| 0 <= k < |desired| && NameOf(cl, org, desired[k]) == nodes[i].name;
      c := desired[k];
    }
    NamedIsMember(cl, org, current, c);
    NamedIsMember(cl, org, desired, c);
  }

  /** There are exactly as many nodes as consenters in the two lists together. */
  lemma NodeCount(cl: Cluster, org: string, current: seq<Consenter>, desired: seq<Consenter>, nodes: seq<Node>)
    requires UniqueNames(cl, org) && Placed(cl, org, current, desired, nodes)
    ensures |nodes| == |(set c <- current) + (set c <- desired)|
  {
    var all := (set c <- current) + (set c <- desired);
    NamesOfSet(cl, org, all);
    DistinctNames(nodes);
    SameNames(cl, org, current, desired);
    assert NodeNames(nodes) == NamesOf(cl, org, all);
  }

  function NamesOf(cl: Cluster, org: string, cs: set<Consenter>): set<string> {
    set c <- cs :: NameOf(cl, org, c)
  }

  lemma SameNames(cl: Cluster, org: string, cs: seq<Consenter>, ds: seq<Consenter>)
    ensures Names(cl, org, cs) + Names(cl, org, ds) == NamesOf(cl, org, (set c <- cs) + (set c <- ds))
  {
    var all := (set c <- cs) + (set c <- ds);
    NamesCover(cl, org, cs, all);
    NamesCover(cl, org, ds, all);
    forall c <- all
      ensures NameOf(cl, org, c) in Names(cl, org, cs) + Names(cl, org, ds)
    {
      if c in cs {
        var i :| 0 <= i < |cs| && cs[i] == c;
      } else {
        var i :| 0 <= i < |ds| && ds[i] == c;
      }
    }
  }

  lemma NamesCover(cl: Cluster, org: string, cs: seq<Consenter>, all: set<Consenter>)
    requires forall c <- cs :: c in all
    ensures Names(cl, org, cs) <= NamesOf(cl, org, all)
  {
  }

  lemma {:induction false} DistinctNames(nodes: seq<Node>)
    requires Distinct(nodes)
    ensures |NodeNames(nodes)| == |nodes|
  {
    if nodes == [] {
      assert NodeNames(nodes) == {};
    } else {
      var n := |nodes| - 1;
      DistinctNames(nodes[..n]);
      assert nodes == nodes[..n] + [nodes[n]];
      NodeNamesAppend(nodes[..n], nodes[n]);
      assert nodes[n].name !in NodeNames(nodes[..n]);
    }
  }

  lemma {:induction false} NamesOfSet(cl: Cluster, org: string, cs: set<Consenter>)
    requires UniqueNames(cl, org) && forall c <- cs :: Managed(cl, org, c)
    ensures |NamesOf(cl, org, cs)| == |cs|
    decreases |cs|
  {
    if cs == {} {
      assert NamesOf(cl, org, cs) == {};
    } else {
      var x :| x in cs;
      NamesOfSet(cl, org, cs - {x});
      forall c <- cs - {x}
        ensures NameOf(cl, org, c) != NameOf(cl, org, x)
      {
        OtherName(cl, org, c, x);
      }
      assert NameOf(cl, org, x) !in NamesOf(cl, org, cs - {x});
      NamesWith(cl, org, cs, x);
    }
  }

  lemma NamesWith(cl: Cluster, org: string, cs: set<Consenter>, x: Consenter)
    requires x in cs
    ensures NamesOf(cl, org, cs) == NamesOf(cl, org, cs - {x}) + {NameOf(cl, org, x)}
  {
  }

  lemma OtherName(cl: Cluster, org: string, c: Consenter, d: Consenter)
    requires UniqueNames(cl, org) && Managed(cl, org, c) && Managed(cl, org, d) && c != d
    ensures NameOf(cl, org, c) != NameOf(cl, org, d)
  {
    if NameOf(cl, org, c) == NameOf(cl, org, d) {
      SameNameSameConsenter(cl, org, c, d);
    }
  }

  /** The node at `i` is the only one whose two flags differ. */
  predicate OnlyChange(nodes: seq<Node>, i: nat) {
    i < |nodes| && nodes[i].current != nodes[i].desired &&
    forall j :: 0 <= j < |nodes| && j != i ==> nodes[j].current && nodes[j].desired
  }

  /** Lists that differ in one consenter have nodes that differ in one flag. */
  lemma OneFlagDiffers(cl: Cluster, org: string, current: seq<Consenter>, desired: seq<Consenter>, nodes: seq<Node>, x: Consenter)
    returns (i: nat)
    requires UniqueNames(cl, org) && Placed(cl, org, current, desired, nodes)
    requires (x in current) != (x in desired)
    requires forall c :: c != x ==> (c in current <==> c in desired)
    ensures OnlyChange(nodes, i) && (nodes[i].desired <==> x in desired)
    ensures Managed(cl, org, x) && nodes[i].name == NameOf(cl, org, x)
  {
    assert Managed(cl, org, x) && NameOf(cl, org, x) in NodeNames(nodes);
    i :| 0 <= i < |nodes| && nodes[i].name == NameOf(cl, org, x);
    NamedIsMember(cl, org, current, x);
    NamedIsMember(cl, org, desired, x);
    forall j | 0 <= j < |nodes| && j != i
      ensures nodes[j].current && nodes[j].desired
    {
      var c := Behind(cl, org, current, desired, nodes, j);
      assert c != x;
    }
  }

  /**
   For the two lists of an accepted plan: an Add or Remove shows as exactly one node, that
   of the plan's target, whose flags differ; a plan without a change shows as none.
   */
  lemma NodesShowTheDelta(lib: Library, plan: Plan, before: Source, after: Source, list: seq<Consenter>,
                          cl: Cluster, org: string, nodes: seq<Node>)
    requires Effect(lib, plan, before, after, list) && UniqueNames(cl, org)
    requires Placed(cl, org, before.consenters, after.consenters, nodes)
    ensures plan.action == "AlreadyApplied" ==> forall i :: 0 <= i < |nodes| ==> nodes[i].current && nodes[i].desired
    ensures plan.action in ["Add", "Remove"] ==>
      exists i: nat :: OnlyChange(nodes, i) && (nodes[i].desired <==> plan.action == "Add") &&
                  plan.target.Some? && Managed(cl, org, plan.target.value) &&
                  nodes[i].name == NameOf(cl, org, plan.target.value)
  {
    var cur, des := before.consenters, after.consenters;
    if plan.action == "Add" {
      var c := plan.target.value;
      assert des == cur + [c];
      NotAlreadyIn(lib, cur, c);
      var i := OneFlagDiffers(cl, org, cur, des, nodes, c);
    } else if plan.action == "Remove" {
      var r: nat :| r < |cur| && plan.target == Some(cur[r]) && LeavesOut(cur, des, r);
      LeavesOutExactly(cur, des, r);
      OnlyOnce(lib, cur, r);
      var i := OneFlagDiffers(cl, org, cur, des, nodes, cur[r]);
    } else {
      assert forall i :: 0 <= i < |nodes| ==> nodes[i].name in NodeNames(nodes);
    }
  }

  lemma NotAlreadyIn(lib: Library, cs: seq<Consenter>, c: Consenter)
    requires Consistent(lib, cs + [c])
    ensures c !in cs
  {
    var all := cs + [c];
    forall i | 0 <= i < |cs|
      ensures cs[i] != c
    {
      assert Compatible(lib, all[i], all[|cs|]);
    }
  }

  lemma OnlyOnce(lib: Library, cs: seq<Consenter>, r: nat)
    requires Consistent(lib, cs) && r < |cs|
    ensures cs[r] !in Without(cs, r)
    ensures forall c :: c != cs[r] ==> (c in cs <==> c in Without(cs, r))
  {
    var less := Without(cs, r);
    KeysInjective(lib, cs);
    assert forall i :: 0 <= i < |less| ==> less[i] == cs[if i < r then i else i + 1];
    assert cs == cs[..r] + [cs[r]] + cs[r + 1..];
  }
}
