/**
 The offline Raft planner (internal/channelconfig/raft.go): it compares the consenters of a
 channel config with a desired list, refuses anything beyond one addition or removal, and
 edits exactly the consenter list of the config. ValidateRaftPlan recomputes a supplied plan.
 */
module RaftPlan {
  import opened Wrappers
  import opened Json
  import opened Decimal
  import opened Consenters
  import opened Membership

  const ElementPath: Path := ["channel_group", "groups", "Orderer", "values", "ConsensusType"]
  const ConsensusPath: Path := ElementPath + ["value"]
  const MetadataPath: Path := ["metadata", "consenters"]
  const ConsentersPath: Path := ConsensusPath + MetadataPath

  const ApiVersion := "fabricops.io/v1alpha1"
  const Kind := "FabricChannelRaftUpdatePlan"

  /** RaftUpdatePlan without its constant warnings. */
  datatype Plan = Plan(
    channel: string, sequence: string, action: string, target: Option<Consenter>,
    currentQuorum: nat, desiredQuorum: nat, original: Json, updated: Json)

  /** What the planner reads out of a config: its sequence and its consenters, raw and decoded. */
  datatype Source = Source(sequence: string, entries: seq<Json>, consenters: seq<Consenter>)

  datatype Refusal =
    | UndecodableConfig
    | BadSequence
    | Path(problem: LookupProblem)
    | UndecodableConsensus
    | NotNormalRaft
    | UndecodableConsenters
    | CurrentConsenters(current: Problem)
    | DesiredConsenters(desired: Problem)
    | MoreThanOneChange
    | Unwritable

  /** A string field of a decoded Go struct: absent and null leave the zero value. */
  function TextField(value: Json, name: string): Option<string> {
    match value
    case Null => Some("")
    case Object(fields) =>
      if name !in fields || fields[name] == Null then Some("")
      else if fields[name].Str? then Some(fields[name].text)
      else None
    case _ => None
  }

  predicate NormalRaft(consensus: Json) {
    TextField(consensus, "type") == Some("etcdraft") && TextField(consensus, "state") == Some("STATE_NORMAL")
  }

  predicate Decodable(lib: Library, entries: seq<Json>) {
    forall i :: 0 <= i < |entries| ==> lib.decode(entries[i]).Some?
  }

  function Decoded(lib: Library, entries: seq<Json>): (cs: seq<Consenter>)
    requires Decodable(lib, entries)
    ensures |cs| == |entries|
    ensures forall i :: 0 <= i < |cs| ==> lib.decode(entries[i]) == Some(cs[i])
  {
    seq(|entries|, i requires 0 <= i < |entries| => lib.decode(entries[i]).value)
  }

  /** Everything the planner demands of a config apart from the admissibility of its consenters. */
  function ReadSource(lib: Library, config: Json): Option<Source> {
    var sequence := TextField(config, "sequence");
    var consensus := Lookup(config, ConsensusPath);
    var consenters := Lookup(config, ConsentersPath);
    if sequence.Some? && ParsesAsUint64(sequence.value) &&
       consensus.Ok? && NormalRaft(consensus.value) &&
       consenters.Ok? && consenters.value.Array? && Decodable(lib, consenters.value.items)
    then Some(Source(sequence.value, consenters.value.items, Decoded(lib, consenters.value.items)))
    else None
  }

  /** The first entry whose key is not among `keys`, or the length of the list. */
  function FirstOutside(lib: Library, cs: seq<Consenter>, keys: set<Key>): (i: nat)
    ensures i <= |cs|
    ensures forall j :: 0 <= j < i ==> KeyOf(lib, cs[j]) in keys
    ensures i < |cs| ==> KeyOf(lib, cs[i]) !in keys
  {
    if cs == [] then 0
    else if KeyOf(lib, cs[0]) !in keys then 0
    else
      var rest := FirstOutside(lib, cs[1..], keys);
      assert forall j :: 0 < j < |cs| ==> cs[j] == cs[1..][j - 1];
      1 + rest
  }

  function Without<T>(s: seq<T>, i: nat): seq<T>
    requires i < |s|
  {
    s[..i] + s[i + 1..]
  }

  /** The planner as a function of its inputs; None stands for every refusal. */
  function PlanConfig(lib: Library, original: Json, channel: string, desired: seq<Consenter>): Option<Plan> {
    match ReadSource(lib, original)
    case None => None
    case Some(source) =>
      if Adjacent(lib, source.consenters, desired) then PlanDelta(lib, original, source, channel, desired) else None
  }

  /** Both lists are admissible and at most one consenter comes or goes. */
  predicate Adjacent(lib: Library, current: seq<Consenter>, desired: seq<Consenter>) {
    ValidSet(lib, current) && ValidSet(lib, desired) && Distance(KeySet(lib, current), KeySet(lib, desired)) <= 1
  }

  function PlanDelta(lib: Library, original: Json, source: Source, channel: string, desired: seq<Consenter>): Option<Plan> {
    var current := source.consenters;
    var same := Plan(channel, source.sequence, "AlreadyApplied", None,
                     Quorum(|current|), Quorum(|desired|), original, original);
    var a := FirstOutside(lib, desired, KeySet(lib, current));
    var r := FirstOutside(lib, current, KeySet(lib, desired));
    if a < |desired| then
      Edited(same.(action := "Add", target := Some(desired[a])), source.entries + [lib.encode(desired[a])])
    else if r < |current| && r < |source.entries| then
      Edited(same.(action := "Remove", target := Some(current[r])), Without(source.entries, r))
    else Some(same)
  }

  function Edited(plan: Plan, entries: seq<Json>): Option<Plan> {
    match Replace(Some(plan.original), ConsentersPath, Array(entries))
    case Done(updated) => Some(plan.(updated := updated))
    case _ => None
  }

  // ---------------------------------------------------------------- the imperative planner

  /** One of the two loops over a Go map: how many keys are not in `others`, and the index of the last one met. */
  method CountOutside<K(==)>(keys: map<K, nat>, others: set<K>) returns (last: int, count: nat)
    ensures count == |keys.Keys - others|
    ensures last == -1 <==> count == 0
    ensures last >= -1
    ensures last >= 0 ==> exists k <- keys.Keys - others :: keys[k] == last
  {
    last, count := -1, 0;
    var todo := keys.Keys;
    ghost var outside: set<K>, hit: seq<K> := {}, [];
    while todo != {}
      invariant todo <= keys.Keys && count == |outside|
      invariant forall k :: k in outside <==> k in keys && k !in todo && k !in others
      invariant if last == -1 then count == 0 else count > 0 && |hit| == 1 && hit[0] in outside && keys[hit[0]] == last
      decreases todo
    {
      var key :| key in todo;
      if key !in others {
        last, count := keys[key], count + 1;
        outside, hit := outside + {key}, [key];
      }
      todo := todo - {key};
    }
    assert outside == keys.Keys - others;
  }

  ghost predicate RefusalHolds(lib: Library, original: Json, desired: seq<Consenter>, refusal: Refusal) {
    match refusal
    case UndecodableConfig => TextField(original, "sequence").None?
    case BadSequence =>
      TextField(original, "sequence").Some? && !ParsesAsUint64(TextField(original, "sequence").value)
    case Path(problem) =>
      Lookup(original, ConsensusPath) == Err(problem) || Lookup(original, ConsentersPath) == Err(problem)
    case UndecodableConsensus =>
      Lookup(original, ConsensusPath).Ok? &&
      (var v := Lookup(original, ConsensusPath).value;
       TextField(v, "type").None? || TextField(v, "state").None?)
    case NotNormalRaft =>
      Lookup(original, ConsensusPath).Ok? && !NormalRaft(Lookup(original, ConsensusPath).value)
    case UndecodableConsenters =>
      Lookup(original, ConsentersPath).Ok? &&
      (var v := Lookup(original, ConsentersPath).value; !v.Array? || !Decodable(lib, v.items))
    case CurrentConsenters(problem) =>
      ReadSource(lib, original).Some? && Explains(lib, ReadSource(lib, original).value.consenters, problem)
    case DesiredConsenters(problem) => Explains(lib, desired, problem)
    case MoreThanOneChange =>
      ReadSource(lib, original).Some? &&
      Distance(KeySet(lib, ReadSource(lib, original).value.consenters), KeySet(lib, desired)) > 1
    case Unwritable => false
  }

  /** The first half of planRaftConfig: reading the sequence, the consensus type and the consenters. */
  method DecodeSource(lib: Library, original: Json) returns (r: Result<Source, Refusal>)
    ensures r.Ok? <==> ReadSource(lib, original).Some?
    ensures r.Ok? ==> r.value == ReadSource(lib, original).value
    ensures r.Err? ==> RefusalHolds(lib, original, [], r.error)
    ensures r.Err? ==> !r.error.DesiredConsenters? && !r.error.CurrentConsenters? && !r.error.MoreThanOneChange?
  {
    var sequence := TextField(original, "sequence");
    if sequence.None? {
      return Err(UndecodableConfig);
    }
    if !ParsesAsUint64(sequence.value) {
      return Err(BadSequence);
    }
    var consensus := RaftJsonValue(original, ConsensusPath);
    if consensus.Err? {
      return Err(Path(consensus.error));
    }
    if TextField(consensus.value, "type").None? || TextField(consensus.value, "state").None? {
      return Err(UndecodableConsensus);
    }
    if !NormalRaft(consensus.value) {
      return Err(NotNormalRaft);
    }
    var raw := RaftJsonValue(original, ConsentersPath);
    if raw.Err? {
      return Err(Path(raw.error));
    }
    if !raw.value.Array? || !Decodable(lib, raw.value.items) {
      return Err(UndecodableConsenters);
    }
    return Ok(Source(sequence.value, raw.value.items, Decoded(lib, raw.value.items)));
  }

  ghost predicate ComparisonFails(lib: Library, current: seq<Consenter>, desired: seq<Consenter>, refusal: Refusal) {
    match refusal
    case CurrentConsenters(problem) => Explains(lib, current, problem)
    case DesiredConsenters(problem) => Explains(lib, desired, problem)
    case MoreThanOneChange => Distance(KeySet(lib, current), KeySet(lib, desired)) > 1
    case _ => false
  }

  /** The comparison in planRaftConfig: the index of the entry to add and to remove, -1 for none. */
  method CompareSets(lib: Library, current: seq<Consenter>, desired: seq<Consenter>)
    returns (r: Result<(int, int), Refusal>)
    ensures r.Ok? <==> Adjacent(lib, current, desired)
    ensures r.Ok? ==> r.value.0 == IndexOrNone(FirstOutside(lib, desired, KeySet(lib, current)), |desired|)
    ensures r.Ok? ==> r.value.1 == IndexOrNone(FirstOutside(lib, current, KeySet(lib, desired)), |current|)
    ensures r.Err? ==> ComparisonFails(lib, current, desired, r.error)
  {
    var currentKeys := ValidateConsenters(lib, current);
    if currentKeys.Err? {
      return Err(CurrentConsenters(currentKeys.error));
    }
    var desiredKeys := ValidateConsenters(lib, desired);
    if desiredKeys.Err? {
      return Err(DesiredConsenters(desiredKeys.error));
    }
    var added, additions := CountOutside(desiredKeys.value, currentKeys.value.Keys);
    var removed, removals := CountOutside(currentKeys.value, desiredKeys.value.Keys);
    if additions + removals > 1 {
      return Err(MoreThanOneChange);
    }
    LastIsFirst(lib, desired, desiredKeys.value, currentKeys.value.Keys, added);
    LastIsFirst(lib, current, currentKeys.value, desiredKeys.value.Keys, removed);
    return Ok((added, removed));
  }

  function IndexOrNone(i: nat, length: nat): int {
    if i < length then i else -1
  }

  /** The second half of planRaftConfig: the edit of the consenter list and of the config around it. */
  method EditConfig(lib: Library, original: Json, source: Source, channel: string, desired: seq<Consenter>, added: int, removed: int)
    returns (r: Result<Plan, Refusal>)
    requires Lookup(original, ConsentersPath).Ok? && |source.entries| == |source.consenters|
    requires added == IndexOrNone(FirstOutside(lib, desired, KeySet(lib, source.consenters)), |desired|)
    requires removed == IndexOrNone(FirstOutside(lib, source.consenters, KeySet(lib, desired)), |source.consenters|)
    ensures r.Ok? && PlanDelta(lib, original, source, channel, desired) == Some(r.value)
  {
    var current, entries := source.consenters, source.entries;
    var plan := Plan(channel, source.sequence, "AlreadyApplied", None,
                     Quorum(|current|), Quorum(|desired|), original, original);
    if added < 0 && removed < 0 {
      return Ok(plan);
    }
    if added >= 0 {
      plan := plan.(action := "Add", target := Some(desired[added]));
      entries := entries + [lib.encode(desired[added])];
    } else {
      plan := plan.(action := "Remove", target := Some(current[removed]));
      entries := entries[..removed] + entries[removed + 1..];
    }
    ReadableIsWritable(original, ConsentersPath);
    ReplaceSucceedsExactly(original, ConsentersPath, Array(entries));
    var updated := Replace(Some(original), ConsentersPath, Array(entries));
    if !updated.Done? {
      return Err(Unwritable);
    }
    return Ok(plan.(updated := updated.document));
  }

  /** planRaftConfig: whatever order the two map loops take, it computes PlanConfig. */
  method PlanRaftConfig(lib: Library, original: Json, channel: string, desired: seq<Consenter>)
    returns (r: Result<Plan, Refusal>)
    ensures r.Ok? <==> PlanConfig(lib, original, channel, desired).Some?
    ensures r.Ok? ==> r.value == PlanConfig(lib, original, channel, desired).value
    ensures r.Err? ==> RefusalHolds(lib, original, desired, r.error)
  {
    var source := DecodeSource(lib, original);
    if source.Err? {
      return Err(source.error);
    }
    var compared := CompareSets(lib, source.value.consenters, desired);
    if compared.Err? {
      return Err(compared.error);
    }
    r := EditConfig(lib, original, source.value, channel, desired, compared.value.0, compared.value.1);
  }

  /** With at most one key outside, the entry found by any iteration order is the first one outside. */
  lemma LastIsFirst(lib: Library, cs: seq<Consenter>, keys: map<Key, nat>, others: set<Key>, last: int)
    requires Consistent(lib, cs) && Indexed(lib, cs, keys)
    requires |keys.Keys - others| <= 1
    requires last >= -1 && (last == -1 <==> |keys.Keys - others| == 0)
    requires last >= 0 ==> exists k <- keys.Keys - others :: keys[k] == last
    ensures last == IndexOrNone(FirstOutside(lib, cs, others), |cs|)
  {
    var first := FirstOutside(lib, cs, others);
    if first < |cs| {
      var found := KeyOf(lib, cs[first]);
      assert found in keys.Keys - others;
      var k :| k in keys.Keys - others && keys[k] == last;
      OnlyOne(keys.Keys - others, k, found);
    } else {
      forall k <- keys.Keys
        ensures k in others
      {
        var i :| 0 <= i < |cs| && KeyOf(lib, cs[i]) == k;
      }
      assert keys.Keys - others == {};
    }
  }

  lemma OnlyOne<T>(s: set<T>, a: T, b: T)
    requires |s| <= 1 && a in s && b in s
    ensures a == b
  {
    assert |s - {a}| == 0;
  }

  // --------------------------------------------------------------------- the plan validator

  /** The fields of a supplied plan that ValidateRaftPlan looks at; target and quorums are recomputed. */
  datatype Supplied = Supplied(
    apiVersion: string, kind: string, channel: string, sequence: string, action: string,
    original: Option<Json>, updated: Option<Json>)

  function Submit(plan: Plan): Supplied {
    Supplied(ApiVersion, Kind, plan.channel, plan.sequence, plan.action, Some(plan.original), Some(plan.updated))
  }

  predicate Addressed(supplied: Supplied, channel: string) {
    supplied.apiVersion == ApiVersion && supplied.kind == Kind && channel != "" && supplied.channel == channel
  }

  /** ValidateRaftPlan as a function; None stands for every refusal. */
  function ValidatePlan(lib: Library, supplied: Supplied, channel: string): Option<Plan> {
    if !Addressed(supplied, channel) || supplied.updated.None? || supplied.original.None? then None
    else
      var raw := Lookup(supplied.updated.value, ConsentersPath);
      if raw.Err? || !raw.value.Array? || !Decodable(lib, raw.value.items) then None
      else
        match PlanConfig(lib, supplied.original.value, channel, Decoded(lib, raw.value.items))
        case None => None
        case Some(computed) =>
          if supplied.sequence == computed.sequence && supplied.action == computed.action &&
             supplied.updated.value == computed.updated
          then Some(computed) else None
  }

  datatype PlanRefusal =
    | WrongHeader
    | UndecodablePlan
    | MissingConsenters(problem: LookupProblem)
    | Unplannable(refusal: Refusal)
    | WrongActionOrSequence
    | OtherFieldsChanged

  /** ValidateRaftPlan: recomputes the plan and compares action, sequence and updated config. */
  method ValidateRaftPlan(lib: Library, supplied: Supplied, channel: string) returns (r: Result<Plan, PlanRefusal>)
    ensures r.Ok? <==> ValidatePlan(lib, supplied, channel).Some?
    ensures r.Ok? ==> r.value == ValidatePlan(lib, supplied, channel).value
  {
    if !Addressed(supplied, channel) {
      return Err(WrongHeader);
    }
    if supplied.updated.None? {
      return Err(UndecodablePlan);
    }
    var raw := RaftJsonValue(supplied.updated.value, ConsentersPath);
    if raw.Err? {
      return Err(MissingConsenters(raw.error));
    }
    if !raw.value.Array? || !Decodable(lib, raw.value.items) || supplied.original.None? {
      return Err(UndecodablePlan);
    }
    var computed := PlanRaftConfig(lib, supplied.original.value, channel, Decoded(lib, raw.value.items));
    if computed.Err? {
      return Err(Unplannable(computed.error));
    }
    if supplied.sequence != computed.value.sequence || supplied.action != computed.value.action {
      return Err(WrongActionOrSequence);
    }
    if supplied.updated.value != computed.value.updated {
      return Err(OtherFieldsChanged);
    }
    return Ok(computed.value);
  }
}
