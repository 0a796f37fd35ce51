/**
 What the planner and the plan validator guarantee for every config, every desired list and
 every supplied plan.
 */
module RaftPlanLaws {
  import opened Wrappers
  import opened Json
  import opened Decimal
  import opened Consenters
  import opened Membership
  import opened RaftPlan

  /** Entry i is gone and every other entry is in its old order, position by position. */
  ghost predicate LeavesOut<T(!new)>(before: seq<T>, after: seq<T>, i: nat) {
    i < |before| && |after| == |before| - 1 && (forall k :: 0 <= k < i ==> after[k] == before[k]) &&
    forall k :: i <= k < |after| ==> after[k] == before[k + 1]
  }

  /** Without is that, and nothing else is. */
  lemma LeavesOutExactly<T(!new)>(before: seq<T>, after: seq<T>, i: nat)
    requires i < |before|
    ensures LeavesOut(before, after, i) <==> after == Without(before, i)
  {
  }

  /** Keeping, appending one entry, or deleting one entry: all that a plan may do to the list. */
  ghost predicate SingleDelta<T(!new)>(action: string, before: seq<T>, after: seq<T>) {
    match action
    case "AlreadyApplied" => after == before
    case "Add" => exists x :: after == before + [x]
    case "Remove" => exists i: nat :: LeavesOut(before, after, i)
    case _ => false
  }

  /** A config that agrees off the consenter list with a readable one is read the same way. */
  lemma ReadAfterEdit(lib: Library, original: Json, updated: Json, entries: seq<Json>)
    requires ReadSource(lib, original).Some? && Decodable(lib, entries)
    requires AgreeOff(original, updated, ConsentersPath)
    requires Lookup(updated, ConsentersPath) == Ok(Array(entries))
    ensures ReadSource(lib, updated) ==
            Some(Source(ReadSource(lib, original).value.sequence, entries, Decoded(lib, entries)))
  {
    var source := ReadSource(lib, original).value;
    AgreeOffDescend(original, updated, ConsensusPath, MetadataPath);
    var before, after := Lookup(original, ConsensusPath).value, Lookup(updated, ConsensusPath).value;
    SameTextField(before, after, MetadataPath, "type");
    SameTextField(before, after, MetadataPath, "state");
    SameTextField(original, updated, ConsentersPath, "sequence");
  }

  lemma SameTextField(a: Json, b: Json, path: Path, name: string)
    requires AgreeOff(a, b, path) && path != [] && path[0] != name
    ensures TextField(a, name) == TextField(b, name)
  {
    assert name in a.fields - {path[0]} <==> name in b.fields - {path[0]};
    assert name in a.fields ==> (a.fields - {path[0]})[name] == (b.fields - {path[0]})[name];
  }

  /** What a readable config looks like, without the planner's own readers. */
  ghost predicate Reads(lib: Library, config: Json, source: Source) {
    Lookup(config, ["sequence"]) == Ok(Str(source.sequence)) &&
    source.sequence != "" && Digits(source.sequence) && Value(source.sequence) <= 18446744073709551615 &&
    ConsensusField(config, ["type"]) == Ok(Str("etcdraft")) && ConsensusField(config, ["state"]) == Ok(Str("STATE_NORMAL")) &&
    ConsensusField(config, ["metadata", "consenters"]) == Ok(Array(source.entries)) &&
    |source.entries| == |source.consenters| &&
    forall i :: 0 <= i < |source.entries| ==> lib.decode(source.entries[i]) == Some(source.consenters[i])
  }

  ghost function ConsensusField(config: Json, rest: Path): Result<Json, LookupProblem> {
    Lookup(config, ["channel_group", "groups", "Orderer", "values", "ConsensusType", "value"] + rest)
  }

  /** Looking further from what was found. */
  lemma {:induction false} LookupFurther(config: Json, path: Path, rest: Path)
    requires Lookup(config, path).Ok?
    ensures Lookup(config, path + rest) == Lookup(Lookup(config, path).value, rest)
    decreases |path|
  {
    if path == [] {
      assert path + rest == rest;
    } else {
      assert (path + rest)[0] == path[0] && (path + rest)[1..] == path[1..] + rest;
      LookupFurther(config.fields[path[0]], path[1..], rest);
    }
  }

  lemma {:induction false} LookupThrough(config: Json, path: Path, rest: Path)
    requires Lookup(config, path + rest).Ok?
    ensures Lookup(config, path).Ok?
    decreases |path|
  {
    if path == [] {
    } else {
      assert (path + rest)[0] == path[0] && (path + rest)[1..] == path[1..] + rest;
      LookupThrough(config.fields[path[0]], path[1..], rest);
    }
  }

  /** A non-empty string field of a decoded struct is one that is really there. */
  lemma TextFieldFound(value: Json, name: string, text: string)
    requires text != ""
    ensures TextField(value, name) == Some(text) <==> Lookup(value, [name]) == Ok(Str(text))
  {
    assert [name][1..] == [];
  }

  /** The planner reads exactly the configs in normal Raft with a decimal sequence and decodable consenters. */
  lemma ReadsExactly(lib: Library, config: Json, source: Source)
    ensures ReadSource(lib, config) == Some(source) <==> Reads(lib, config, source)
  {
    var path := ["channel_group", "groups", "Orderer", "values", "ConsensusType", "value"];
    assert path == ConsensusPath && path + ["metadata", "consenters"] == ConsentersPath;
    if ReadSource(lib, config) == Some(source) {
      TextFieldFound(config, "sequence", source.sequence);
      ConsensusFound(config, path);
    }
    if Reads(lib, config, source) {
      TextFieldFound(config, "sequence", source.sequence);
      LookupThrough(config, path, ["type"]);
      ConsensusFound(config, path);
      assert Decodable(lib, source.entries);
      assert Decoded(lib, source.entries) == source.consenters;
      assert ReadSource(lib, config) == Some(source);
    }
  }

  lemma ConsensusFound(config: Json, path: Path)
    requires Lookup(config, path).Ok?
    ensures NormalRaft(Lookup(config, path).value) <==>
            Lookup(config, path + ["type"]) == Ok(Str("etcdraft")) && Lookup(config, path + ["state"]) == Ok(Str("STATE_NORMAL"))
  {
    LookupFurther(config, path, ["type"]);
    LookupFurther(config, path, ["state"]);
    TextFieldFound(Lookup(config, path).value, "type", "etcdraft");
    TextFieldFound(Lookup(config, path).value, "state", "STATE_NORMAL");
  }

  /** The planner accepts exactly the readable configs with both lists admissible and adjacent. */
  lemma AcceptsExactly(lib: Library, original: Json, channel: string, desired: seq<Consenter>)
    ensures PlanConfig(lib, original, channel, desired).Some? <==>
            ReadSource(lib, original).Some? && Adjacent(lib, ReadSource(lib, original).value.consenters, desired)
  {
    if ReadSource(lib, original).Some? {
      ReadableIsWritable(original, ConsentersPath);
      var source := ReadSource(lib, original).value;
      var a := FirstOutside(lib, desired, KeySet(lib, source.consenters));
      var r := FirstOutside(lib, source.consenters, KeySet(lib, desired));
      if a < |desired| {
        ReplaceSucceedsExactly(original, ConsentersPath, Array(source.entries + [lib.encode(desired[a])]));
      } else if r < |source.consenters| {
        ReplaceSucceedsExactly(original, ConsentersPath, Array(Without(source.entries, r)));
      }
    }
  }

  // ------------------------------------------------------------------ key sets of edited lists

  lemma AppendedKeys(lib: Library, cs: seq<Consenter>, c: Consenter, goal: seq<Consenter>)
    requires ValidSet(lib, cs) && ValidSet(lib, goal) && c in goal
    requires KeySet(lib, goal) - KeySet(lib, cs) == {KeyOf(lib, c)} && KeySet(lib, cs) <= KeySet(lib, goal)
    ensures ValidSet(lib, cs + [c]) && KeySet(lib, cs + [c]) == KeySet(lib, goal)
  {
    KeySetAppend(lib, cs, c);
    var n :| 0 <= n < |goal| && goal[n] == c;
    forall i | 0 <= i < |cs|
      ensures Compatible(lib, cs[i], c)
    {
      var k := KeyOf(lib, cs[i]);
      assert k in KeySet(lib, cs);
      var j :| 0 <= j < |goal| && KeyOf(lib, goal[j]) == k;
      assert j != n;
      assert Compatible(lib, goal[j], goal[n]) || Compatible(lib, goal[n], goal[j]);
      SameKeySameCompatibility(lib, goal[j], cs[i], c);
    }
    ConsistentAppend(lib, cs, c);
  }

  lemma SameKeySameCompatibility(lib: Library, a: Consenter, b: Consenter, c: Consenter)
    requires KeyOf(lib, a) == KeyOf(lib, b)
    ensures Compatible(lib, a, c) <==> Compatible(lib, b, c)
    ensures Compatible(lib, c, a) <==> Compatible(lib, a, c)
  {
    assert Digests(lib, a) == Digests(lib, b);
  }

  lemma WithoutConsistent(lib: Library, cs: seq<Consenter>, r: nat)
    requires Consistent(lib, cs) && r < |cs|
    ensures Consistent(lib, Without(cs, r))
    ensures KeySet(lib, Without(cs, r)) == KeySet(lib, cs) - {KeyOf(lib, cs[r])}
  {
    var less := Without(cs, r);
    assert forall i :: 0 <= i < |less| ==> less[i] == cs[if i < r then i else i + 1];
    KeysInjective(lib, cs);
    forall k | k in KeySet(lib, cs) - {KeyOf(lib, cs[r])}
      ensures k in KeySet(lib, less)
    {
      var i :| 0 <= i < |cs| && KeyOf(lib, cs[i]) == k;
      assert less[if i < r then i else i - 1] == cs[i];
    }
    forall i, j | 0 <= i < j < |less|
      ensures Compatible(lib, less[i], less[j])
    {
      assert Compatible(lib, cs[if i < r then i else i + 1], cs[if j < r then j else j + 1]);
    }
  }

  lemma RemovedKeys(lib: Library, cs: seq<Consenter>, r: nat, goal: seq<Consenter>)
    requires ValidSet(lib, cs) && ValidSet(lib, goal) && r < |cs|
    requires KeySet(lib, cs) - KeySet(lib, goal) == {KeyOf(lib, cs[r])} && KeySet(lib, goal) <= KeySet(lib, cs)
    ensures ValidSet(lib, Without(cs, r)) && KeySet(lib, Without(cs, r)) == KeySet(lib, goal)
  {
    WithoutConsistent(lib, cs, r);
    assert KeyOf(lib, goal[0]) in KeySet(lib, Without(cs, r));
  }

  /** At most one key apart: what the two first-outside searches then say about the key sets. */
  lemma AdjacentCases(lib: Library, current: seq<Consenter>, desired: seq<Consenter>)
    requires Adjacent(lib, current, desired)
    ensures var a, r := FirstOutside(lib, desired, KeySet(lib, current)), FirstOutside(lib, current, KeySet(lib, desired));
            if a < |desired|
            then KeySet(lib, desired) - KeySet(lib, current) == {KeyOf(lib, desired[a])} && KeySet(lib, current) <= KeySet(lib, desired)
            else if r < |current|
            then KeySet(lib, current) - KeySet(lib, desired) == {KeyOf(lib, current[r])} && KeySet(lib, desired) <= KeySet(lib, current)
            else KeySet(lib, current) == KeySet(lib, desired)
  {
    var cur, des := KeySet(lib, current), KeySet(lib, desired);
    var a, r := FirstOutside(lib, desired, cur), FirstOutside(lib, current, des);
    if a < |desired| {
      AtMostOne(des - cur, cur - des, KeyOf(lib, desired[a]));
    } else {
      assert des <= cur;
      if r < |current| {
        AtMostOne(cur - des, des - cur, KeyOf(lib, current[r]));
      } else {
        assert cur <= des;
      }
    }
  }

  // ---------------------------------------------------------------------- what a plan does

  /** What an accepted plan promises about the sources read before and after it. */
  ghost predicate Effect(lib: Library, plan: Plan, before: Source, after: Source, desired: seq<Consenter>) {
    before.sequence == after.sequence == plan.sequence &&
    ValidSet(lib, before.consenters) && ValidSet(lib, after.consenters) &&
    KeySet(lib, after.consenters) == KeySet(lib, desired) &&
    |after.consenters| == |desired| &&
    plan.currentQuorum == Quorum(|before.consenters|) && plan.desiredQuorum == Quorum(|after.consenters|) &&
    match plan.action
    case "AlreadyApplied" => plan.target == None && plan.updated == plan.original && after == before
    case "Add" =>
      exists c <- desired :: plan.target == Some(c) &&
        after.entries == before.entries + [lib.encode(c)] && after.consenters == before.consenters + [c]
    case "Remove" =>
      |before.entries| == |before.consenters| &&
      exists i: nat :: i < |before.consenters| && plan.target == Some(before.consenters[i]) &&
        LeavesOut(before.entries, after.entries, i) && LeavesOut(before.consenters, after.consenters, i)
    case _ => false
  }

  /** The plan's two configs are readable, agree off the consenter list, and differ on it as `Effect` says. */
  ghost predicate PlanEffect(lib: Library, plan: Plan, desired: seq<Consenter>) {
    AgreeOff(plan.original, plan.updated, ConsentersPath) &&
    exists before, after :: ReadSource(lib, plan.original) == Some(before) && ReadSource(lib, plan.updated) == Some(after) &&
      Effect(lib, plan, before, after, desired)
  }

  /** Editing the consenter list of a readable config gives a config that reads back the new list. */
  lemma EditedReads(lib: Library, plan: Plan, source: Source, entries: seq<Json>, cs: seq<Consenter>)
    requires ReadSource(lib, plan.original) == Some(source)
    requires Decodable(lib, entries) && Decoded(lib, entries) == cs
    ensures Edited(plan, entries).Some?
    ensures var updated := Edited(plan, entries).value.updated;
            AgreeOff(plan.original, updated, ConsentersPath) &&
            ReadSource(lib, updated) == Some(Source(source.sequence, entries, cs))
  {
    ReadableIsWritable(plan.original, ConsentersPath);
    ReplaceEffect(plan.original, ConsentersPath, Array(entries));
    ReadAfterEdit(lib, plan.original, Edited(plan, entries).value.updated, entries);
  }

  lemma SourceDecodes(lib: Library, config: Json, source: Source)
    requires ReadSource(lib, config) == Some(source)
    ensures Decodable(lib, source.entries) && Decoded(lib, source.entries) == source.consenters
  {
  }

  lemma DecodedAppend(lib: Library, entries: seq<Json>, c: Consenter)
    requires Decodable(lib, entries) && lib.decode(lib.encode(c)) == Some(c)
    ensures Decodable(lib, entries + [lib.encode(c)])
    ensures Decoded(lib, entries + [lib.encode(c)]) == Decoded(lib, entries) + [c]
  {
  }

  lemma DecodedWithout(lib: Library, entries: seq<Json>, r: nat)
    requires Decodable(lib, entries) && r < |entries|
    ensures Decodable(lib, Without(entries, r))
    ensures Decoded(lib, Without(entries, r)) == Without(Decoded(lib, entries), r)
  {
  }

  /** Every accepted plan has the promised effect. */
  lemma PlanHasEffect(lib: Library, original: Json, channel: string, desired: seq<Consenter>)
    requires RoundTrips(lib) && PlanConfig(lib, original, channel, desired).Some?
    ensures PlanEffect(lib, PlanConfig(lib, original, channel, desired).value, desired)
    ensures PlanConfig(lib, original, channel, desired).value.original == original
    ensures PlanConfig(lib, original, channel, desired).value.channel == channel
  {
    var source := ReadSource(lib, original).value;
    SourceDecodes(lib, original, source);
    DeltaHasEffect(lib, original, source, channel, desired);
  }

  lemma DeltaHasEffect(lib: Library, original: Json, source: Source, channel: string, desired: seq<Consenter>)
    requires RoundTrips(lib) && ReadSource(lib, original) == Some(source)
    requires Decodable(lib, source.entries) && Decoded(lib, source.entries) == source.consenters
    requires Adjacent(lib, source.consenters, desired)
    ensures PlanDelta(lib, original, source, channel, desired).Some?
    ensures var plan := PlanDelta(lib, original, source, channel, desired).value;
            plan.original == original && plan.channel == channel && PlanEffect(lib, plan, desired)
  {
    var current := source.consenters;
    var same := Plan(channel, source.sequence, "AlreadyApplied", None,
                     Quorum(|current|), Quorum(|desired|), original, original);
    var a, r := FirstOutside(lib, desired, KeySet(lib, current)), FirstOutside(lib, current, KeySet(lib, desired));
    AdjacentCases(lib, current, desired);
    if a < |desired| {
      var plan := same.(action := "Add", target := Some(desired[a]));
      assert PlanDelta(lib, original, source, channel, desired) == Edited(plan, source.entries + [lib.encode(desired[a])]);
      AdditionHasEffect(lib, plan, source, desired, a);
    } else if r < |current| {
      var plan := same.(action := "Remove", target := Some(current[r]));
      assert PlanDelta(lib, original, source, channel, desired) == Edited(plan, Without(source.entries, r));
      RemovalHasEffect(lib, plan, source, desired, r);
    } else {
      assert PlanDelta(lib, original, source, channel, desired) == Some(same);
      NoChangeHasEffect(lib, same, source, desired);
    }
  }

  lemma NoChangeHasEffect(lib: Library, plan: Plan, source: Source, desired: seq<Consenter>)
    requires ReadSource(lib, plan.original) == Some(source) && plan.updated == plan.original
    requires plan.action == "AlreadyApplied" && plan.target == None && Prepared(plan, source, desired)
    requires ValidSet(lib, source.consenters) && ValidSet(lib, desired)
    requires KeySet(lib, source.consenters) == KeySet(lib, desired)
    ensures PlanEffect(lib, plan, desired)
  {
    AgreeOffReflexive(plan.original, ConsentersPath);
    SameSize(lib, source.consenters, desired);
    assert Effect(lib, plan, source, source, desired);
  }

  /** The plan record before its updated config is filled in. */
  ghost predicate Prepared(plan: Plan, source: Source, desired: seq<Consenter>) {
    plan.sequence == source.sequence &&
    plan.currentQuorum == Quorum(|source.consenters|) && plan.desiredQuorum == Quorum(|desired|)
  }

  lemma AdditionHasEffect(lib: Library, plan: Plan, source: Source, desired: seq<Consenter>, a: nat)
    requires RoundTrips(lib) && ReadSource(lib, plan.original) == Some(source) && Prepared(plan, source, desired)
    requires Decodable(lib, source.entries) && Decoded(lib, source.entries) == source.consenters
    requires ValidSet(lib, source.consenters) && ValidSet(lib, desired) && a < |desired|
    requires plan.action == "Add" && plan.target == Some(desired[a])
    requires KeySet(lib, desired) - KeySet(lib, source.consenters) == {KeyOf(lib, desired[a])}
    requires KeySet(lib, source.consenters) <= KeySet(lib, desired)
    ensures var edited := Edited(plan, source.entries + [lib.encode(desired[a])]);
            edited.Some? && PlanEffect(lib, edited.value, desired)
  {
    var c := desired[a];
    var after := Source(source.sequence, source.entries + [lib.encode(c)], source.consenters + [c]);
    assert WellFormed(lib, c);
    DecodedAppend(lib, source.entries, c);
    EditedReads(lib, plan, source, after.entries, after.consenters);
    AppendedKeys(lib, source.consenters, c, desired);
    SameSize(lib, after.consenters, desired);
    assert Effect(lib, Edited(plan, after.entries).value, source, after, desired);
  }

  lemma RemovalHasEffect(lib: Library, plan: Plan, source: Source, desired: seq<Consenter>, r: nat)
    requires ReadSource(lib, plan.original) == Some(source) && Prepared(plan, source, desired)
    requires Decodable(lib, source.entries) && Decoded(lib, source.entries) == source.consenters
    requires ValidSet(lib, source.consenters) && ValidSet(lib, desired) && r < |source.consenters|
    requires plan.action == "Remove" && plan.target == Some(source.consenters[r])
    requires KeySet(lib, source.consenters) - KeySet(lib, desired) == {KeyOf(lib, source.consenters[r])}
    requires KeySet(lib, desired) <= KeySet(lib, source.consenters)
    ensures var edited := Edited(plan, Without(source.entries, r));
            edited.Some? && PlanEffect(lib, edited.value, desired)
  {
    var after := Source(source.sequence, Without(source.entries, r), Without(source.consenters, r));
    DecodedWithout(lib, source.entries, r);
    EditedReads(lib, plan, source, after.entries, after.consenters);
    RemovedKeys(lib, source.consenters, r, desired);
    SameSize(lib, after.consenters, desired);
    LeavesOutExactly(source.entries, after.entries, r);
    LeavesOutExactly(source.consenters, after.consenters, r);
    assert Effect(lib, Edited(plan, after.entries).value, source, after, desired);
  }

  lemma SameSize(lib: Library, cs: seq<Consenter>, ds: seq<Consenter>)
    requires Consistent(lib, cs) && Consistent(lib, ds) && KeySet(lib, cs) == KeySet(lib, ds)
    ensures |cs| == |ds|
  {
    KeyCount(lib, cs);
    KeyCount(lib, ds);
  }

  /** Lists with the same keys leave nothing to do. */
  lemma NothingToDo(lib: Library, config: Json, source: Source, channel: string, desired: seq<Consenter>)
    requires ReadSource(lib, config) == Some(source) && ValidSet(lib, source.consenters) && ValidSet(lib, desired)
    requires KeySet(lib, source.consenters) == KeySet(lib, desired)
    ensures PlanConfig(lib, config, channel, desired) ==
            Some(Plan(channel, source.sequence, "AlreadyApplied", None,
                      Quorum(|source.consenters|), Quorum(|desired|), config, config))
  {
    NothingOutside(lib, source.consenters);
    NothingOutside(lib, desired);
  }

  lemma NothingOutside(lib: Library, cs: seq<Consenter>)
    ensures FirstOutside(lib, cs, KeySet(lib, cs)) == |cs|
    ensures Distance(KeySet(lib, cs), KeySet(lib, cs)) == 0
  {
    assert KeySet(lib, cs) - KeySet(lib, cs) == {};
    assert forall i :: 0 <= i < |cs| ==> KeyOf(lib, cs[i]) in KeySet(lib, cs);
  }

  /** Planning again on the updated config, with the same desired list, finds nothing to do. */
  lemma ReplanIsAlreadyApplied(lib: Library, original: Json, channel: string, desired: seq<Consenter>)
    requires RoundTrips(lib) && PlanConfig(lib, original, channel, desired).Some?
    ensures var updated := PlanConfig(lib, original, channel, desired).value.updated;
            PlanConfig(lib, updated, channel, desired).Some? &&
            var again := PlanConfig(lib, updated, channel, desired).value;
            again.action == "AlreadyApplied" && again.updated == updated
  {
    PlanHasEffect(lib, original, channel, desired);
    var updated := PlanConfig(lib, original, channel, desired).value.updated;
    NothingToDo(lib, updated, ReadSource(lib, updated).value, channel, desired);
  }

  /** Every other field of the config answers as before. */
  lemma RestOfConfigUntouched(lib: Library, original: Json, channel: string, desired: seq<Consenter>, other: Path)
    requires RoundTrips(lib) && PlanConfig(lib, original, channel, desired).Some? && Diverge(ConsentersPath, other)
    ensures Lookup(PlanConfig(lib, original, channel, desired).value.updated, other) == Lookup(original, other)
  {
    PlanHasEffect(lib, original, channel, desired);
    LookupOffPath(original, PlanConfig(lib, original, channel, desired).value.updated, ConsentersPath, other);
  }

  // ------------------------------------------------------------------------- the validator

  /** The list that an accepted plan writes would itself have produced the very same plan. */
  lemma PlanFromItsOwnResult(lib: Library, original: Json, channel: string, desired: seq<Consenter>)
    requires RoundTrips(lib) && PlanConfig(lib, original, channel, desired).Some?
    ensures var plan := PlanConfig(lib, original, channel, desired).value;
            ReadSource(lib, plan.updated).Some? &&
            PlanConfig(lib, original, channel, ReadSource(lib, plan.updated).value.consenters) == Some(plan)
  {
    PlanHasEffect(lib, original, channel, desired);
    var plan := PlanConfig(lib, original, channel, desired).value;
    var before, after :| ReadSource(lib, plan.original) == Some(before) && ReadSource(lib, plan.updated) == Some(after) &&
                         Effect(lib, plan, before, after, desired);
    if plan.action == "Add" {
      EffectOnAdd(lib, plan, before, after, desired);
    }
    SameDelta(lib, original, before, after.consenters, channel, desired);
  }

  lemma EffectOnAdd(lib: Library, plan: Plan, before: Source, after: Source, desired: seq<Consenter>)
    requires Effect(lib, plan, before, after, desired) && plan.action == "Add"
    ensures plan.target.Some? && after.consenters == before.consenters + [plan.target.value]
  {
  }

  lemma SameDelta(lib: Library, original: Json, before: Source, res: seq<Consenter>, channel: string, desired: seq<Consenter>)
    requires Adjacent(lib, before.consenters, desired) && |before.entries| == |before.consenters|
    requires ValidSet(lib, res) && KeySet(lib, res) == KeySet(lib, desired) && |res| == |desired|
    requires PlanDelta(lib, original, before, channel, desired).Some?
    requires var plan := PlanDelta(lib, original, before, channel, desired).value;
             plan.action == "Add" ==> plan.target.Some? && res == before.consenters + [plan.target.value]
    ensures Adjacent(lib, before.consenters, res)
    ensures PlanDelta(lib, original, before, channel, res) == PlanDelta(lib, original, before, channel, desired)
  {
    OwnResultIndex(lib, before.consenters, desired, res);
  }

  /** In its own result a plan would add the appended entry, and nothing else. */
  lemma OwnResultIndex(lib: Library, cur: seq<Consenter>, desired: seq<Consenter>, res: seq<Consenter>)
    requires Adjacent(lib, cur, desired) && ValidSet(lib, res) && KeySet(lib, res) == KeySet(lib, desired)
    requires var a := FirstOutside(lib, desired, KeySet(lib, cur)); a < |desired| ==> res == cur + [desired[a]]
    ensures var a := FirstOutside(lib, desired, KeySet(lib, cur));
            FirstOutside(lib, res, KeySet(lib, cur)) == if a < |desired| then |cur| else |res|
  {
    var a := FirstOutside(lib, desired, KeySet(lib, cur));
    if a < |desired| {
      assert forall i :: 0 <= i < |cur| ==> res[i] == cur[i] && KeyOf(lib, cur[i]) in KeySet(lib, cur);
      assert res[|cur|] == desired[a];
    } else {
      AdjacentCases(lib, cur, desired);
      assert forall i :: 0 <= i < |res| ==> KeyOf(lib, res[i]) in KeySet(lib, res);
    }
  }

  /** Completeness: the validator accepts every plan the planner emits, and recomputes that very plan. */
  lemma ValidatorComplete(lib: Library, original: Json, channel: string, desired: seq<Consenter>)
    requires RoundTrips(lib) && channel != "" && PlanConfig(lib, original, channel, desired).Some?
    ensures ValidatePlan(lib, Submit(PlanConfig(lib, original, channel, desired).value), channel) ==
            PlanConfig(lib, original, channel, desired)
  {
    PlanHasEffect(lib, original, channel, desired);
    PlanFromItsOwnResult(lib, original, channel, desired);
    var plan := PlanConfig(lib, original, channel, desired).value;
    SourceDecodes(lib, plan.updated, ReadSource(lib, plan.updated).value);
  }

  /** A supplied plan says the same as a planner's plan in every field that is compared. */
  predicate Says(supplied: Supplied, plan: Plan) {
    supplied.sequence == plan.sequence && supplied.action == plan.action &&
    supplied.original == Some(plan.original) && supplied.updated == Some(plan.updated)
  }

  /** The validator accepts exactly what the planner could have emitted for some desired list. */
  lemma ValidatorExact(lib: Library, supplied: Supplied, channel: string)
    requires RoundTrips(lib)
    ensures ValidatePlan(lib, supplied, channel).Some? <==>
            Addressed(supplied, channel) && supplied.original.Some? &&
            exists desired :: PlanConfig(lib, supplied.original.value, channel, desired).Some? &&
                              Says(supplied, PlanConfig(lib, supplied.original.value, channel, desired).value)
  {
    if ValidatePlan(lib, supplied, channel).Some? {
      var desired := Decoded(lib, Lookup(supplied.updated.value, ConsentersPath).value.items);
      PlanHasEffect(lib, supplied.original.value, channel, desired);
      assert Says(supplied, PlanConfig(lib, supplied.original.value, channel, desired).value);
    }
    if Addressed(supplied, channel) && supplied.original.Some? {
      forall desired | PlanConfig(lib, supplied.original.value, channel, desired).Some? &&
                       Says(supplied, PlanConfig(lib, supplied.original.value, channel, desired).value)
        ensures ValidatePlan(lib, supplied, channel).Some?
      {
        PlanHasEffect(lib, supplied.original.value, channel, desired);
        ValidatorComplete(lib, supplied.original.value, channel, desired);
        assert supplied == Submit(PlanConfig(lib, supplied.original.value, channel, desired).value);
      }
    }
  }

  /** The plan's two configs can be read, and the second has the first one's list with a single delta. */
  ghost predicate ReadsAsDelta(lib: Library, plan: Plan, before: Source, after: Source) {
    ReadSource(lib, plan.original) == Some(before) && ReadSource(lib, plan.updated) == Some(after) &&
    Adjacent(lib, before.consenters, after.consenters) &&
    Effect(lib, plan, before, after, after.consenters) && SingleDelta(plan.action, before.entries, after.entries)
  }

  /** Soundness: whatever else a supplied plan contains, an accepted one is a single-consenter delta. */
  lemma ValidatorSound(lib: Library, supplied: Supplied, channel: string)
    requires RoundTrips(lib) && ValidatePlan(lib, supplied, channel).Some?
    ensures var plan := ValidatePlan(lib, supplied, channel).value;
            supplied.original == Some(plan.original) && supplied.updated == Some(plan.updated) &&
            supplied.action == plan.action && supplied.sequence == plan.sequence &&
            supplied.channel == plan.channel == channel && channel != "" &&
            supplied.apiVersion == "fabricops.io/v1alpha1" && supplied.kind == "FabricChannelRaftUpdatePlan" &&
            AgreeOff(plan.original, plan.updated, ConsentersPath) &&
            exists before, after :: ReadsAsDelta(lib, plan, before, after)
  {
    var desired := Decoded(lib, Lookup(supplied.updated.value, ConsentersPath).value.items);
    PlanHasEffect(lib, supplied.original.value, channel, desired);
    var plan := ValidatePlan(lib, supplied, channel).value;
    var before, after :| ReadSource(lib, plan.original) == Some(before) && ReadSource(lib, plan.updated) == Some(after) &&
                         Effect(lib, plan, before, after, desired);
    assert after.consenters == desired;
    EffectIsDelta(lib, plan, before, after, desired);
    assert ReadsAsDelta(lib, plan, before, after);
  }

  lemma EffectIsDelta(lib: Library, plan: Plan, before: Source, after: Source, desired: seq<Consenter>)
    requires Effect(lib, plan, before, after, desired)
    ensures SingleDelta(plan.action, before.entries, after.entries)
    ensures SingleDelta(plan.action, before.consenters, after.consenters)
  {
  }

  // ----------------------------------------------------------------- the order of `desired`

  lemma TwoIndices<T>(s: seq<T>, x: T) returns (i: nat, j: nat)
    requires multiset(s)[x] >= 2
    ensures i < j < |s| && s[i] == x && s[j] == x
  {
    assert x in multiset(s);
    i :| 0 <= i < |s| && s[i] == x;
    assert s == s[..i] + [x] + s[i + 1..];
    if x in multiset(s[i + 1..]) {
      j :| i + 1 <= j < |s| && s[j] == x;
    } else {
      assert x in multiset(s[..i]);
      j := i;
      i :| 0 <= i < j && s[i] == x;
    }
  }

  lemma PermutedConsistent(lib: Library, cs: seq<Consenter>, ds: seq<Consenter>)
    requires Consistent(lib, cs) && multiset(cs) == multiset(ds)
    ensures Consistent(lib, ds)
  {
    forall i | 0 <= i < |ds|
      ensures WellFormed(lib, ds[i])
    {
      assert ds[i] in multiset(cs);
    }
    forall i, j | 0 <= i < j < |ds|
      ensures Compatible(lib, ds[i], ds[j])
    {
      if ds[i] == ds[j] {
        assert ds == ds[..j] + ds[j..] && ds[i] == ds[..j][i] && ds[j] == ds[j..][0];
        assert ds[i] in multiset(ds[..j]) && ds[i] in multiset(ds[j..]);
        var k, l := TwoIndices(cs, ds[i]);
      } else {
        assert ds[i] in multiset(cs) && ds[j] in multiset(cs);
        var k :| 0 <= k < |cs| && cs[k] == ds[i];
        var l :| 0 <= l < |cs| && cs[l] == ds[j];
        assert Compatible(lib, cs[k], cs[l]) || Compatible(lib, cs[l], cs[k]);
        SameKeySameCompatibility(lib, cs[k], cs[k], cs[l]);
      }
    }
  }

  lemma PermutedKeys(lib: Library, cs: seq<Consenter>, ds: seq<Consenter>)
    requires multiset(cs) == multiset(ds)
    ensures KeySet(lib, cs) <= KeySet(lib, ds)
  {
    forall i | 0 <= i < |cs|
      ensures KeyOf(lib, cs[i]) in KeySet(lib, ds)
    {
      assert cs[i] in multiset(ds);
    }
  }

  /** The order in which the desired consenters are listed does not matter. */
  lemma OrderIrrelevant(lib: Library, original: Json, channel: string, cs: seq<Consenter>, ds: seq<Consenter>)
    requires multiset(cs) == multiset(ds)
    ensures PlanConfig(lib, original, channel, cs) == PlanConfig(lib, original, channel, ds)
  {
    PermutedKeys(lib, cs, ds);
    PermutedKeys(lib, ds, cs);
    assert |cs| == |multiset(cs)| == |ds|;
    if ReadSource(lib, original).Some? {
      var source := ReadSource(lib, original).value;
      if Consistent(lib, cs) {
        PermutedConsistent(lib, cs, ds);
        SameChoice(lib, source.consenters, cs, ds);
      } else if Consistent(lib, ds) {
        PermutedConsistent(lib, ds, cs);
      }
    }
  }

  lemma SameChoice(lib: Library, current: seq<Consenter>, cs: seq<Consenter>, ds: seq<Consenter>)
    requires Consistent(lib, cs) && Consistent(lib, ds) && multiset(cs) == multiset(ds) && KeySet(lib, cs) == KeySet(lib, ds)
    requires |cs| == |ds|
    ensures Adjacent(lib, current, cs) <==> Adjacent(lib, current, ds)
    ensures Adjacent(lib, current, cs) ==>
      var a, b := FirstOutside(lib, cs, KeySet(lib, current)), FirstOutside(lib, ds, KeySet(lib, current));
      (a < |cs| <==> b < |ds|) && (a < |cs| ==> cs[a] == ds[b])
  {
    if Adjacent(lib, current, cs) {
      AdjacentCases(lib, current, cs);
      AdjacentCases(lib, current, ds);
      var a, b := FirstOutside(lib, cs, KeySet(lib, current)), FirstOutside(lib, ds, KeySet(lib, current));
      assert a < |cs| ==> KeyOf(lib, cs[a]) in KeySet(lib, ds);
      assert b < |ds| ==> KeyOf(lib, ds[b]) in KeySet(lib, cs);
      if a < |cs| && b < |ds| {
        assert ds[b] in multiset(cs);
        var j :| 0 <= j < |cs| && cs[j] == ds[b];
        assert {KeyOf(lib, cs[a])} == {KeyOf(lib, ds[b])};
        KeysInjective(lib, cs);
      }
    }
  }
}
