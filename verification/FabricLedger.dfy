/**
 What the submission protocol relies on in Fabric: the committed channel configs, the config
 update that configtxlator computes for a Raft plan, and the version check that decides
 whether the ordering service commits it. These are assumptions about Fabric, stated as
 definitions; nothing here is FabricOps code.
 */
module FabricLedger {
  import opened Wrappers
  import opened Json
  import opened Decimal
  import opened Consenters
  import opened RaftPlan

  const VersionPath: Path := ElementPath + ["version"]
  const SequencePath: Path := ["sequence"]

  function Text(config: Json, path: Path): Option<string> {
    match Lookup(config, path)
    case Ok(Str(s)) => Some(s)
    case _ => None
  }

  /** A config as Fabric serves it: canonical sequence and version numbers, and a consensus type. */
  predicate Live(config: Json) {
    var sequence, version := Text(config, SequencePath), Text(config, VersionPath);
    sequence.Some? && Canonical(sequence.value) && ParsesAsUint64(sequence.value) &&
    version.Some? && Canonical(version.value) && Lookup(config, ConsensusPath).Ok?
  }

  function Sequence(config: Json): nat
    requires Live(config)
  {
    Value(Text(config, SequencePath).value)
  }

  function Version(config: Json): nat
    requires Live(config)
  {
    Value(Text(config, VersionPath).value)
  }

  /**
   What `configtxlator compute_update` yields for a pair of configs that differ below the
   consensus type's value: the version that was read and the value to write.
   */
  datatype ConfigUpdate = ConfigUpdate(channel: string, base: string, value: Json)

  function ComputeUpdate(channel: string, original: Json, updated: Json): Option<ConfigUpdate> {
    match (Text(original, VersionPath), Lookup(updated, ConsensusPath))
    case (Some(base), Ok(value)) => Some(ConfigUpdate(channel, base, value))
    case _ => None
  }

  function Write(config: Json, path: Path, value: Json): Json {
    match Replace(Some(config), path, value)
    case Done(document) => document
    case _ => config
  }

  /** Fabric's read-set check: the element still has the version the update was computed from. */
  predicate Accepts(config: Json, update: ConfigUpdate) {
    Live(config) && Text(config, VersionPath) == Some(update.base) &&
    Sequence(config) + 1 < 0x1_0000_0000_0000_0000
  }

  /** Committing writes the value, the next version of the element and the next config sequence. */
  function Apply(config: Json, update: ConfigUpdate): Json
    requires Accepts(config, update)
  {
    var valued := Write(config, ConsensusPath, update.value);
    var versioned := Write(valued, VersionPath, Str(Print(Version(config) + 1)));
    Write(versioned, SequencePath, Str(Print(Sequence(config) + 1)))
  }

  /**
   Fabric's rule for every config commit, whoever submitted it: the config sequence goes up,
   and the consensus type keeps its version only if it is not touched.
   */
  predicate Commits(before: Json, after: Json) {
    Live(before) && Live(after) && Sequence(after) > Sequence(before) &&
    (Lookup(after, ElementPath) == Lookup(before, ElementPath) || Version(after) > Version(before))
  }

  datatype Block = Block(number: nat, config: Json)

  /** Every config block of the channel, oldest first. */
  ghost predicate History(ledger: seq<Block>) {
    ledger != [] && (forall i :: 0 <= i < |ledger| ==> Live(ledger[i].config)) &&
    forall i, j :: 0 <= i < j < |ledger| ==>
      ledger[i].number < ledger[j].number && Later(ledger[i].config, ledger[j].config)
  }

  ghost predicate Later(a: Json, b: Json) {
    Live(a) && Live(b) && Sequence(a) < Sequence(b) && Version(a) <= Version(b) &&
    (Version(a) == Version(b) ==> Lookup(a, ElementPath) == Lookup(b, ElementPath))
  }

  lemma PathFacts()
    ensures ConsensusPath == ElementPath + ["value"] && VersionPath == ElementPath + ["version"]
    ensures Diverge(ConsensusPath, VersionPath) && Diverge(VersionPath, ConsensusPath)
    ensures Diverge(SequencePath, ConsensusPath) && Diverge(SequencePath, VersionPath)
    ensures Diverge(ConsensusPath, SequencePath) && Diverge(VersionPath, SequencePath)
  {
    var p, q := ConsensusPath, VersionPath;
    assert p[..5] == q[..5] && p[5] != q[5];
    assert SequencePath[..0] == p[..0] == q[..0] && SequencePath[0] != p[0] && SequencePath[0] != q[0];
  }

  lemma SameVersionText(a: Json)
    requires Live(a)
    ensures Lookup(a, ElementPath).Ok?
    ensures Lookup(Lookup(a, ElementPath).value, ["version"]) == Lookup(a, VersionPath)
    ensures Lookup(Lookup(a, ElementPath).value, ["value"]) == Lookup(a, ConsensusPath)
  {
    PathFacts();
    LookupPrefix(a, ElementPath, ["version"]);
    LookupConcat(a, ElementPath, ["version"]);
    LookupConcat(a, ElementPath, ["value"]);
  }

  /** One write: the value is there, the rest answers as before. */
  lemma WriteEffect(config: Json, path: Path, value: Json)
    requires Lookup(config, path).Ok? && value != Null
    ensures Lookup(Write(config, path, value), path) == Ok(value)
    ensures AgreeOff(config, Write(config, path, value), path)
  {
    ReadableIsWritable(config, path);
    ReplaceEffect(config, path, value);
  }

  /** What a commit of the update leaves behind. */
  lemma ApplyEffect(config: Json, update: ConfigUpdate)
    requires Accepts(config, update) && update.value != Null
    ensures var after := Apply(config, update);
            Lookup(after, ConsensusPath) == Ok(update.value) &&
            Text(after, VersionPath) == Some(Print(Version(config) + 1)) &&
            Text(after, SequencePath) == Some(Print(Sequence(config) + 1))
  {
    PathFacts();
    var valued := Write(config, ConsensusPath, update.value);
    WriteEffect(config, ConsensusPath, update.value);
    LookupOffPath(config, valued, ConsensusPath, VersionPath);
    LookupOffPath(config, valued, ConsensusPath, SequencePath);
    var version := Str(Print(Version(config) + 1));
    var versioned := Write(valued, VersionPath, version);
    WriteEffect(valued, VersionPath, version);
    LookupOffPath(valued, versioned, VersionPath, ConsensusPath);
    LookupOffPath(valued, versioned, VersionPath, SequencePath);
    var sequence := Str(Print(Sequence(config) + 1));
    WriteEffect(versioned, SequencePath, sequence);
    LookupOffPath(versioned, Write(versioned, SequencePath, sequence), SequencePath, ConsensusPath);
    LookupOffPath(versioned, Write(versioned, SequencePath, sequence), SequencePath, VersionPath);
  }

  /** Paths that leave all three written places answer as before. */
  lemma ApplyFrame(config: Json, update: ConfigUpdate, other: Path)
    requires Accepts(config, update) && update.value != Null
    requires Diverge(ConsensusPath, other) && Diverge(VersionPath, other) && Diverge(SequencePath, other)
    ensures Lookup(Apply(config, update), other) == Lookup(config, other)
  {
    PathFacts();
    var valued := Write(config, ConsensusPath, update.value);
    WriteEffect(config, ConsensusPath, update.value);
    LookupOffPath(config, valued, ConsensusPath, VersionPath);
    LookupOffPath(config, valued, ConsensusPath, SequencePath);
    LookupOffPath(config, valued, ConsensusPath, other);
    var version := Str(Print(Version(config) + 1));
    var versioned := Write(valued, VersionPath, version);
    WriteEffect(valued, VersionPath, version);
    LookupOffPath(valued, versioned, VersionPath, SequencePath);
    LookupOffPath(valued, versioned, VersionPath, other);
    var sequence := Str(Print(Sequence(config) + 1));
    WriteEffect(versioned, SequencePath, sequence);
    LookupOffPath(versioned, Write(versioned, SequencePath, sequence), SequencePath, other);
  }

  /** The committed config obeys Fabric's own rule for commits. */
  lemma ApplyCommits(config: Json, update: ConfigUpdate)
    requires Accepts(config, update) && update.value != Null
    ensures Commits(config, Apply(config, update))
    ensures Version(Apply(config, update)) == Value(update.base) + 1
  {
    ApplyEffect(config, update);
    PrintRoundTrip(Version(config) + 1);
    PrintRoundTrip(Sequence(config) + 1);
  }

  /** A commit extends the history. */
  lemma HistoryGrows(ledger: seq<Block>, block: Block)
    requires History(ledger) && Commits(ledger[|ledger| - 1].config, block.config)
    requires block.number > ledger[|ledger| - 1].number
    ensures History(ledger + [block])
  {
    var tip, grown := ledger[|ledger| - 1], ledger + [block];
    SameElementSameVersion(tip.config, block.config);
    forall i | 0 <= i < |ledger|
      ensures ledger[i].number < block.number && Later(ledger[i].config, block.config)
    {
      if i < |ledger| - 1 {
        LaterTransitive(ledger[i].config, tip.config, block.config);
      }
    }
    assert forall i :: 0 <= i < |ledger| ==> grown[i] == ledger[i];
  }

  /** A commit of an accepted update extends the history. */
  lemma ApplyExtends(ledger: seq<Block>, update: ConfigUpdate, number: nat)
    requires History(ledger) && number > ledger[|ledger| - 1].number
    requires Accepts(ledger[|ledger| - 1].config, update) && update.value != Null
    ensures History(ledger + [Block(number, Apply(ledger[|ledger| - 1].config, update))])
  {
    var tip := ledger[|ledger| - 1].config;
    ApplyCommits(tip, update);
    HistoryGrows(ledger, Block(number, Apply(tip, update)));
  }

  lemma LaterTransitive(a: Json, b: Json, c: Json)
    requires Later(a, b) && Later(b, c)
    ensures Later(a, c)
  {
  }

  lemma SameElementSameVersion(a: Json, b: Json)
    requires Commits(a, b)
    ensures Later(a, b)
  {
    SameVersionText(a);
    SameVersionText(b);
  }

  /** In a history one version of the consensus type has one content. */
  lemma VersionDeterminesElement(ledger: seq<Block>, i: nat, j: nat)
    requires History(ledger) && i < |ledger| && j < |ledger|
    requires Text(ledger[i].config, VersionPath) == Text(ledger[j].config, VersionPath)
    ensures Lookup(ledger[i].config, ConsensusPath) == Lookup(ledger[j].config, ConsensusPath)
  {
    SameVersionText(ledger[i].config);
    SameVersionText(ledger[j].config);
    if i < j {
      assert Later(ledger[i].config, ledger[j].config);
    } else if j < i {
      assert Later(ledger[j].config, ledger[i].config);
    }
  }
}
