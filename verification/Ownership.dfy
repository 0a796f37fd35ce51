/**
 Which FabricNetwork an object belongs to, and the two guarded operations
 (internal/controller/fabricnetwork_controller.go, fabricnetwork_org.go): an update that
 retries on conflicts, and a delete. Reconcilers of several networks interleave freely; the
 API server keeps resource versions.

 Updates are safe without further ado, even on copies from a stale cache, because of the
 version check. Deletes carry no precondition; they are treated here for copies that were
 current when they were read, and then they are safe exactly if no object is marked by labels
 alone that two of the networks share. `OwnershipCache` treats old copies.
 */
module Ownership {
  import opened Wrappers
  import opened Runs
  import opened StringMaps
  import opened Names

  datatype Owner = Owner(name: string, namespace: string)

  datatype Meta = Meta(labels: Strings, annotations: Strings)

  const NameKey := "fabricops.io/fabricnetwork"
  const NamespaceKey := "fabricops.io/fabricnetwork-namespace"

  function OwnerIn(m: Strings): Owner {
    Owner(At(m, NameKey), At(m, NamespaceKey))
  }

  predicate Present(o: Owner) {
    o.name != "" || o.namespace != ""
  }

  predicate HasOwner(m: Meta) {
    Present(OwnerIn(m.annotations)) || Present(OwnerIn(m.labels))
  }

  /** ensureSameFabricNetworkOwner: annotations decide, labels only where there is no annotation. */
  predicate SameOwner(existing: Meta, desired: Meta) {
    if Present(OwnerIn(existing.annotations)) then OwnerIn(existing.annotations) == OwnerIn(desired.annotations)
    else Present(OwnerIn(existing.labels)) ==> OwnerIn(existing.labels) == OwnerIn(desired.labels)
  }

  /** Every mutation keeps what is there and merges the desired labels and annotations. */
  function MergedMeta(existing: Meta, desired: Meta): Meta {
    Meta(Merged(existing.labels, desired.labels), Merged(existing.annotations, desired.annotations))
  }

  // ------------------------------------------------------------------------ the API server

  datatype Object = Object(version: nat, meta: Meta)

  /** A reconciler between two API calls: it may hold a copy that is no longer current. */
  datatype Activity = Idle | Holding(name: string, copy: Object, desired: Meta)

  datatype World = World(objects: map<string, Object>, revision: nat, actors: map<Owner, Activity>)

  /** What a network's builders put on every object; labels carry sanitized names. */
  predicate BuiltFor(labelOf: Owner -> Owner, n: Owner, m: Meta) {
    Present(n) && OwnerIn(m.annotations) == n && OwnerIn(m.labels) == labelOf(n)
  }

  ghost predicate CreateStep(labelOf: Owner -> Owner, n: Owner, w: World, w': World) {
    exists name, meta :: name !in w.objects && BuiltFor(labelOf, n, meta) &&
      w' == w.(objects := w.objects[name := Object(w.revision + 1, meta)], revision := w.revision + 1)
  }

  /** Get or List that answers with the current object: the start of an update attempt, of a retry, or of a delete. */
  ghost predicate ReadStep(labelOf: Owner -> Owner, n: Owner, w: World, w': World) {
    exists name <- w.objects, desired :: BuiltFor(labelOf, n, desired) &&
      w' == w.(actors := w.actors[n := Holding(name, w.objects[name], desired)])
  }

  /** A read from a cache that lags behind: any copy that is not a false image of the current version. */
  ghost predicate StaleReadStep(labelOf: Owner -> Owner, n: Owner, w: World, w': World) {
    exists name, copy, desired :: StaleRead(labelOf, n, w, w', name, copy, desired)
  }

  ghost predicate StaleRead(labelOf: Owner -> Owner, n: Owner, w: World, w': World, name: string, copy: Object, desired: Meta) {
    BuiltFor(labelOf, n, desired) && copy.version <= w.revision &&
    (name in w.objects && w.objects[name].version == copy.version ==> w.objects[name] == copy) &&
    w' == w.(actors := w.actors[n := Holding(name, copy, desired)])
  }

  /** The update of updateObjectWithRetry; on a conflict, a refusal or a missing object nothing is written. */
  ghost predicate WriteStep(n: Owner, w: World, w': World) {
    n in w.actors && w.actors[n].Holding? &&
    var held := w.actors[n];
    if SameOwner(held.copy.meta, held.desired) && held.name in w.objects && w.objects[held.name].version == held.copy.version
    then w' == World(w.objects[held.name := Object(w.revision + 1, MergedMeta(held.copy.meta, held.desired))],
                     w.revision + 1, w.actors[n := Idle])
    else w' == w.(actors := w.actors[n := Idle])
  }

  /** deleteOwnedObject: the owner is checked on the copy, the delete goes by name. */
  ghost predicate DeleteStep(n: Owner, w: World, w': World) {
    n in w.actors && w.actors[n].Holding? &&
    var held := w.actors[n];
    if HasOwner(held.copy.meta) && SameOwner(held.copy.meta, held.desired)
    then w' == w.(objects := w.objects - {held.name}, actors := w.actors[n := Idle])
    else w' == w.(actors := w.actors[n := Idle])
  }

  /** Other controllers write status and the like, without touching labels or annotations. */
  ghost predicate TouchStep(w: World, w': World) {
    exists name <- w.objects ::
      w' == w.(objects := w.objects[name := Object(w.revision + 1, w.objects[name].meta)], revision := w.revision + 1)
  }

  ghost predicate ActorStep(labelOf: Owner -> Owner, n: Owner, w: World, w': World) {
    CreateStep(labelOf, n, w, w') || ReadStep(labelOf, n, w, w') || WriteStep(n, w, w') || DeleteStep(n, w, w')
  }

  ghost predicate Stamped(w: World) {
    forall name <- w.objects :: w.objects[name].version <= w.revision
  }

  ghost predicate Init(w: World) {
    w.actors == map[] && Stamped(w)
  }

  /** Marked for another network: by its annotation, or by its label where there is no annotation. */
  predicate Foreign(labelOf: Owner -> Owner, n: Owner, m: Meta) {
    if Present(OwnerIn(m.annotations)) then OwnerIn(m.annotations) != n
    else Present(OwnerIn(m.labels)) && OwnerIn(m.labels) != labelOf(n)
  }

  /**
   What network n may do to an object: nothing if it is marked for another network, anything
   but delete it if it has no mark at all, and anything but change the annotation if it is its own.
   */
  ghost predicate Respected(labelOf: Owner -> Owner, w: World, w': World, n: Owner, name: string) {
    name in w.objects ==>
      var m := w.objects[name].meta;
      if Foreign(labelOf, n, m) then name in w'.objects && w'.objects[name] == w.objects[name]
      else if !Present(OwnerIn(m.annotations)) && !Present(OwnerIn(m.labels)) then name in w'.objects
      else Present(OwnerIn(m.annotations)) && name in w'.objects ==> OwnerIn(w'.objects[name].meta.annotations) == n
  }

  /** Merging the desired metadata of a network that may write leaves the object with that network. */
  lemma MergeKeepsOwner(labelOf: Owner -> Owner, n: Owner, existing: Meta, desired: Meta)
    requires BuiltFor(labelOf, n, desired) && SameOwner(existing, desired)
    ensures Present(OwnerIn(existing.annotations)) ==> OwnerIn(existing.annotations) == n
    ensures OwnerIn(MergedMeta(existing, desired).annotations) == n
    ensures HasOwner(existing) ==> Claimed(labelOf, n, existing)
  {
    MergedAt(existing.annotations, desired.annotations, NameKey);
    MergedAt(existing.annotations, desired.annotations, NamespaceKey);
  }

  /** The guard lets network n work on this object. */
  predicate Claimed(labelOf: Owner -> Owner, n: Owner, m: Meta) {
    HasOwner(m) &&
    if Present(OwnerIn(m.annotations)) then OwnerIn(m.annotations) == n else OwnerIn(m.labels) == labelOf(n)
  }

  // ------------------------------------------------------------------------------- updates

  /** Any step of any network, with fresh and stale reads. */
  ghost predicate AnyStep(labelOf: Owner -> Owner, w: World, w': World) {
    TouchStep(w, w') || exists n :: ActorStep(labelOf, n, w, w') || StaleReadStep(labelOf, n, w, w')
  }

  ghost predicate AnyRun(labelOf: Owner -> Owner, worlds: seq<World>) {
    IsRun(worlds, w => Init(w), (w, w') => AnyStep(labelOf, w, w'))
  }

  /** A copy of the current version is the current object. */
  ghost predicate CopyOk(labelOf: Owner -> Owner, w: World, n: Owner) {
    n in w.actors && w.actors[n].Holding? ==>
      var held := w.actors[n];
      BuiltFor(labelOf, n, held.desired) && held.copy.version <= w.revision &&
      (held.name in w.objects && w.objects[held.name].version == held.copy.version ==> w.objects[held.name] == held.copy)
  }

  ghost predicate CopiesOk(labelOf: Owner -> Owner, w: World) {
    Stamped(w) && forall n :: CopyOk(labelOf, w, n)
  }

  lemma ActorKeepsCopy(labelOf: Owner -> Owner, w: World, w': World, n: Owner, other: Owner)
    requires CopiesOk(labelOf, w) && (ActorStep(labelOf, n, w, w') || StaleReadStep(labelOf, n, w, w'))
    ensures CopyOk(labelOf, w', other)
  {
    assert CopyOk(labelOf, w, other) && CopyOk(labelOf, w, n);
  }

  lemma TouchKeepsCopy(labelOf: Owner -> Owner, w: World, w': World, other: Owner)
    requires CopiesOk(labelOf, w) && TouchStep(w, w')
    ensures CopyOk(labelOf, w', other)
  {
    assert CopyOk(labelOf, w, other);
  }

  lemma StepKeepsStamps(labelOf: Owner -> Owner, w: World, w': World)
    requires Stamped(w) && AnyStep(labelOf, w, w')
    ensures Stamped(w')
  {
  }

  lemma AnyStepKeepsCopies(labelOf: Owner -> Owner, w: World, w': World)
    requires CopiesOk(labelOf, w) && AnyStep(labelOf, w, w')
    ensures CopiesOk(labelOf, w')
  {
    StepKeepsStamps(labelOf, w, w');
    forall other
      ensures CopyOk(labelOf, w', other)
    {
      if TouchStep(w, w') {
        TouchKeepsCopy(labelOf, w, w', other);
      } else {
        var n :| ActorStep(labelOf, n, w, w') || StaleReadStep(labelOf, n, w, w');
        ActorKeepsCopy(labelOf, w, w', n, other);
      }
    }
  }

  lemma WriteRespects(labelOf: Owner -> Owner, w: World, w': World, n: Owner, name: string)
    requires CopiesOk(labelOf, w) && WriteStep(n, w, w')
    ensures Respected(labelOf, w, w', n, name)
  {
    assert CopyOk(labelOf, w, n);
    if w'.objects != w.objects {
      MergeKeepsOwner(labelOf, n, w.actors[n].copy.meta, w.actors[n].desired);
    }
  }

  /**
   Over every interleaving, on whatever copies: an update for network n leaves every object
   annotated by another network exactly as it is, and never changes the owner annotation of
   its own.
   */
  lemma UpdatesRespectOwners(labelOf: Owner -> Owner, worlds: seq<World>, j: nat, n: Owner, name: string)
    requires AnyRun(labelOf, worlds) && j + 1 < |worlds|
    requires CreateStep(labelOf, n, worlds[j], worlds[j + 1]) || WriteStep(n, worlds[j], worlds[j + 1])
    ensures Respected(labelOf, worlds[j], worlds[j + 1], n, name)
  {
    forall w, w' | CopiesOk(labelOf, w) && AnyStep(labelOf, w, w')
      ensures CopiesOk(labelOf, w')
    {
      AnyStepKeepsCopies(labelOf, w, w');
    }
    InvariantHolds(worlds, w => Init(w), (w, w') => AnyStep(labelOf, w, w'), w => CopiesOk(labelOf, w), j);
    if WriteStep(n, worlds[j], worlds[j + 1]) {
      WriteRespects(labelOf, worlds[j], worlds[j + 1], n, name);
    }
  }

  /** The guard is no stricter than that: an object that is not marked for another network can be read and updated. */
  lemma UpdateLands(labelOf: Owner -> Owner, n: Owner, w: World, name: string, desired: Meta) returns (read: World, written: World)
    requires name in w.objects && BuiltFor(labelOf, n, desired) && !Foreign(labelOf, n, w.objects[name].meta)
    ensures ReadStep(labelOf, n, w, read) && WriteStep(n, read, written)
    ensures written.objects.Keys == w.objects.Keys && OwnerIn(written.objects[name].meta.annotations) == n
    ensures forall k <- desired.labels :: desired.labels[k] != "" ==> At(written.objects[name].meta.labels, k) == desired.labels[k]
    ensures forall other <- w.objects :: other != name ==> written.objects[other] == w.objects[other]
  {
    read := w.(actors := w.actors[n := Holding(name, w.objects[name], desired)]);
    written := World(read.objects[name := Object(read.revision + 1, MergedMeta(w.objects[name].meta, desired))],
                     read.revision + 1, read.actors[n := Idle]);
    MergeKeepsOwner(labelOf, n, w.objects[name].meta, desired);
    forall k <- desired.labels
      ensures At(written.objects[name].meta.labels, k) == desired.labels[k]
    {
      MergedAt(w.objects[name].meta.labels, desired.labels, k);
    }
  }

  // ------------------------------------------------------------------------------- deletes

  /** A marked object that is not marked for another network can be read and deleted. */
  lemma DeleteLands(labelOf: Owner -> Owner, n: Owner, w: World, name: string, desired: Meta) returns (read: World, deleted: World)
    requires name in w.objects && BuiltFor(labelOf, n, desired) && !Foreign(labelOf, n, w.objects[name].meta)
    requires Present(OwnerIn(w.objects[name].meta.annotations)) || Present(OwnerIn(w.objects[name].meta.labels))
    ensures ReadStep(labelOf, n, w, read) && DeleteStep(n, read, deleted) && deleted.objects == w.objects - {name}
  {
    read := w.(actors := w.actors[n := Holding(name, w.objects[name], desired)]);
    deleted := read.(objects := read.objects - {name}, actors := read.actors[n := Idle]);
  }

  /** The networks at work, with reads that answer with the current object. */
  ghost predicate NetStep(labelOf: Owner -> Owner, nets: set<Owner>, w: World, w': World) {
    TouchStep(w, w') || exists n <- nets :: ActorStep(labelOf, n, w, w')
  }

  ghost predicate RunFrom(labelOf: Owner -> Owner, nets: set<Owner>, start: World, worlds: seq<World>) {
    IsRun(worlds, w => w == start, (w, w') => NetStep(labelOf, nets, w, w'))
  }

  /** Marked by labels alone. */
  predicate LabelOnly(m: Meta) {
    !Present(OwnerIn(m.annotations)) && Present(OwnerIn(m.labels))
  }

  /** No object that is marked by labels alone carries a label that two of the networks share. */
  ghost predicate Unambiguous(labelOf: Owner -> Owner, nets: set<Owner>, w: World) {
    forall name <- w.objects, n <- nets, m <- nets ::
      LabelOnly(w.objects[name].meta) && OwnerIn(w.objects[name].meta.labels) == labelOf(n) == labelOf(m) ==> n == m
  }

  /** Besides, an object that the holder may delete is still there and still its own. */
  ghost predicate HeldOk(labelOf: Owner -> Owner, w: World, n: Owner) {
    CopyOk(labelOf, w, n) &&
    (n in w.actors && w.actors[n].Holding? ==>
      var held := w.actors[n];
      HasOwner(held.copy.meta) && SameOwner(held.copy.meta, held.desired) ==>
        held.name in w.objects && Claimed(labelOf, n, w.objects[held.name].meta))
  }

  ghost predicate Inv(labelOf: Owner -> Owner, nets: set<Owner>, w: World) {
    Stamped(w) && Unambiguous(labelOf, nets, w) && w.actors.Keys <= nets && forall n <- nets :: HeldOk(labelOf, w, n)
  }

  lemma ClaimIsExclusive(labelOf: Owner -> Owner, nets: set<Owner>, w: World, name: string, n: Owner, m: Owner)
    requires Unambiguous(labelOf, nets, w) && name in w.objects && n in nets && m in nets
    requires Claimed(labelOf, n, w.objects[name].meta) && Claimed(labelOf, m, w.objects[name].meta)
    ensures n == m
  {
  }

  lemma WriteKeepsHeld(labelOf: Owner -> Owner, nets: set<Owner>, w: World, w': World, n: Owner, other: Owner)
    requires Inv(labelOf, nets, w) && n in nets && other in nets && WriteStep(n, w, w') && other != n
    ensures HeldOk(labelOf, w', other)
  {
    assert HeldOk(labelOf, w, other) && HeldOk(labelOf, w, n);
    if other in w.actors && w.actors[other].Holding? && w'.objects != w.objects {
      var held := w.actors[n];
      MergeKeepsOwner(labelOf, n, held.copy.meta, held.desired);
      if w.actors[other].name == held.name && Claimed(labelOf, other, w.objects[held.name].meta) {
        ClaimIsExclusive(labelOf, nets, w, held.name, n, other);
      }
    }
  }

  lemma DeleteKeepsHeld(labelOf: Owner -> Owner, nets: set<Owner>, w: World, w': World, n: Owner, other: Owner)
    requires Inv(labelOf, nets, w) && n in nets && other in nets && DeleteStep(n, w, w') && other != n
    ensures HeldOk(labelOf, w', other)
  {
    assert HeldOk(labelOf, w, other) && HeldOk(labelOf, w, n);
    if other in w.actors && w.actors[other].Holding? && w'.objects != w.objects {
      var name := w.actors[n].name;
      if w.actors[other].name == name && Claimed(labelOf, other, w.objects[name].meta) {
        ClaimIsExclusive(labelOf, nets, w, name, n, other);
      }
    }
  }

  lemma ReadKeepsHeld(labelOf: Owner -> Owner, nets: set<Owner>, w: World, w': World, n: Owner, other: Owner)
    requires Inv(labelOf, nets, w) && other in nets && ReadStep(labelOf, n, w, w')
    ensures HeldOk(labelOf, w', other)
  {
    assert HeldOk(labelOf, w, other);
    if other == n {
      var held := w'.actors[n];
      if SameOwner(held.copy.meta, held.desired) {
        MergeKeepsOwner(labelOf, n, held.copy.meta, held.desired);
      }
    }
  }

  lemma OtherKeepsHeld(labelOf: Owner -> Owner, nets: set<Owner>, w: World, w': World, other: Owner)
    requires Inv(labelOf, nets, w) && other in nets && (TouchStep(w, w') || exists n :: CreateStep(labelOf, n, w, w'))
    ensures HeldOk(labelOf, w', other)
  {
    assert HeldOk(labelOf, w, other);
  }

  lemma StepKeepsHeld(labelOf: Owner -> Owner, nets: set<Owner>, w: World, w': World, other: Owner)
    requires Inv(labelOf, nets, w) && NetStep(labelOf, nets, w, w') && other in nets
    ensures HeldOk(labelOf, w', other)
  {
    if TouchStep(w, w') {
      OtherKeepsHeld(labelOf, nets, w, w', other);
    } else {
      var n :| n in nets && ActorStep(labelOf, n, w, w');
      if CreateStep(labelOf, n, w, w') {
        OtherKeepsHeld(labelOf, nets, w, w', other);
      } else if ReadStep(labelOf, n, w, w') {
        ReadKeepsHeld(labelOf, nets, w, w', n, other);
      } else if other != n {
        if WriteStep(n, w, w') {
          WriteKeepsHeld(labelOf, nets, w, w', n, other);
        } else {
          DeleteKeepsHeld(labelOf, nets, w, w', n, other);
        }
      }
    }
  }

  /** Every object of w' is annotated, or has the metadata it had in w. */
  ghost predicate MarksKept(w: World, w': World) {
    forall name <- w'.objects ::
      Present(OwnerIn(w'.objects[name].meta.annotations)) || (name in w.objects && w'.objects[name].meta == w.objects[name].meta)
  }

  lemma WriteKeepsMarks(labelOf: Owner -> Owner, w: World, w': World, n: Owner)
    requires HeldOk(labelOf, w, n) && WriteStep(n, w, w')
    ensures MarksKept(w, w')
  {
    if w'.objects != w.objects {
      MergeKeepsOwner(labelOf, n, w.actors[n].copy.meta, w.actors[n].desired);
    }
  }

  lemma ActorKeepsMarks(labelOf: Owner -> Owner, w: World, w': World, n: Owner)
    requires HeldOk(labelOf, w, n) && ActorStep(labelOf, n, w, w')
    ensures MarksKept(w, w') && w'.actors.Keys <= w.actors.Keys + {n}
  {
    if WriteStep(n, w, w') {
      WriteKeepsMarks(labelOf, w, w', n);
    }
  }

  /** New and written objects are annotated, so objects marked by labels alone only get fewer. */
  lemma StepKeepsMarks(labelOf: Owner -> Owner, nets: set<Owner>, w: World, w': World)
    requires Inv(labelOf, nets, w) && NetStep(labelOf, nets, w, w')
    ensures MarksKept(w, w') && w'.actors.Keys <= nets
  {
    if !TouchStep(w, w') {
      var n :| n in nets && ActorStep(labelOf, n, w, w');
      ActorKeepsMarks(labelOf, w, w', n);
    }
  }

  lemma KeptMarksAreUnambiguous(labelOf: Owner -> Owner, nets: set<Owner>, w: World, w': World)
    requires Unambiguous(labelOf, nets, w) && MarksKept(w, w')
    ensures Unambiguous(labelOf, nets, w')
  {
  }

  lemma NetStepKeepsInv(labelOf: Owner -> Owner, nets: set<Owner>, w: World, w': World)
    requires Inv(labelOf, nets, w) && NetStep(labelOf, nets, w, w')
    ensures Inv(labelOf, nets, w')
  {
    assert AnyStep(labelOf, w, w');
    StepKeepsStamps(labelOf, w, w');
    StepKeepsMarks(labelOf, nets, w, w');
    KeptMarksAreUnambiguous(labelOf, nets, w, w');
    forall other <- nets
      ensures HeldOk(labelOf, w', other)
    {
      StepKeepsHeld(labelOf, nets, w, w', other);
    }
  }

  lemma ActorRespects(labelOf: Owner -> Owner, nets: set<Owner>, w: World, w': World, n: Owner, name: string)
    requires Inv(labelOf, nets, w) && n in nets && ActorStep(labelOf, n, w, w')
    ensures Respected(labelOf, w, w', n, name)
  {
    assert HeldOk(labelOf, w, n);
    if WriteStep(n, w, w') && w'.objects != w.objects {
      MergeKeepsOwner(labelOf, n, w.actors[n].copy.meta, w.actors[n].desired);
    }
  }

  /** A step of network n in some run from `start` that touches another network's object. */
  ghost predicate Violation(labelOf: Owner -> Owner, nets: set<Owner>, start: World, worlds: seq<World>, j: nat, n: Owner, name: string) {
    RunFrom(labelOf, nets, start, worlds) && j + 1 < |worlds| && n in nets &&
    ActorStep(labelOf, n, worlds[j], worlds[j + 1]) && !Respected(labelOf, worlds[j], worlds[j + 1], n, name)
  }

  lemma UnambiguousIsSafe(
    labelOf: Owner -> Owner, nets: set<Owner>, start: World, worlds: seq<World>, j: nat, n: Owner, name: string)
    requires Init(start) && Unambiguous(labelOf, nets, start)
    ensures !Violation(labelOf, nets, start, worlds, j, n, name)
  {
    if RunFrom(labelOf, nets, start, worlds) && j + 1 < |worlds| && n in nets && ActorStep(labelOf, n, worlds[j], worlds[j + 1]) {
      forall w, w' | Inv(labelOf, nets, w) && NetStep(labelOf, nets, w, w')
        ensures Inv(labelOf, nets, w')
      {
        NetStepKeepsInv(labelOf, nets, w, w');
      }
      InvariantHolds(worlds, w => w == start, (w, w') => NetStep(labelOf, nets, w, w'), w => Inv(labelOf, nets, w), j);
      ActorRespects(labelOf, nets, worlds[j], worlds[j + 1], n, name);
    }
  }

  function MetaFor(labelOf: Owner -> Owner, n: Owner): Meta {
    Meta(map[NameKey := labelOf(n).name, NamespaceKey := labelOf(n).namespace], map[NameKey := n.name, NamespaceKey := n.namespace])
  }

  /**
   Two networks with one label: both list an object marked by that label alone, m adopts it,
   and n, still holding the copy without an annotation, deletes it.
   */
  lemma SharedLabelViolates(labelOf: Owner -> Owner, nets: set<Owner>, start: World, name: string, n: Owner, m: Owner)
    returns (worlds: seq<World>)
    requires Init(start) && n in nets && m in nets && n != m && Present(n) && Present(m)
    requires name in start.objects && LabelOnly(start.objects[name].meta)
    requires OwnerIn(start.objects[name].meta.labels) == labelOf(n) == labelOf(m)
    ensures Violation(labelOf, nets, start, worlds, 3, n, name)
  {
    var w1 := Lists(labelOf, n, start, name);
    OneOf(labelOf, nets, n, start, w1);
    var w2 := Lists(labelOf, m, w1, name);
    OneOf(labelOf, nets, m, w1, w2);
    var w3 := Adopts(labelOf, m, w2, name);
    OneOf(labelOf, nets, m, w2, w3);
    var w4 := Deletes(labelOf, n, m, w3, name);
    OneOf(labelOf, nets, n, w3, w4);
    worlds := ViolationInFour(labelOf, nets, start, w1, w2, w3, w4, n, name);
  }

  lemma OneOf(labelOf: Owner -> Owner, nets: set<Owner>, n: Owner, w: World, w': World)
    requires n in nets && ActorStep(labelOf, n, w, w')
    ensures NetStep(labelOf, nets, w, w')
  {
  }

  lemma ViolationInFour(
    labelOf: Owner -> Owner, nets: set<Owner>, start: World, w1: World, w2: World, w3: World, w4: World, n: Owner, name: string)
    returns (worlds: seq<World>)
    requires NetStep(labelOf, nets, start, w1) && NetStep(labelOf, nets, w1, w2)
    requires NetStep(labelOf, nets, w2, w3) && NetStep(labelOf, nets, w3, w4)
    requires n in nets && ActorStep(labelOf, n, w3, w4) && !Respected(labelOf, w3, w4, n, name)
    ensures Violation(labelOf, nets, start, worlds, 3, n, name)
  {
    worlds := [start, w1, w2, w3, w4];
    RunOfFour(labelOf, nets, start, w1, w2, w3, w4);
    assert worlds[3] == w3 && worlds[3 + 1] == w4;
  }

  lemma Lists(labelOf: Owner -> Owner, n: Owner, w: World, name: string) returns (w': World)
    requires name in w.objects && Present(n)
    ensures ActorStep(labelOf, n, w, w')
    ensures w' == w.(actors := w.actors[n := Holding(name, w.objects[name], MetaFor(labelOf, n))])
  {
    w' := w.(actors := w.actors[n := Holding(name, w.objects[name], MetaFor(labelOf, n))]);
    assert BuiltFor(labelOf, n, MetaFor(labelOf, n));
    assert ReadStep(labelOf, n, w, w');
  }

  /** A write on a current copy of an object marked by the writer's label. */
  lemma Adopts(labelOf: Owner -> Owner, m: Owner, w: World, name: string) returns (w': World)
    requires Present(m) && name in w.objects && LabelOnly(w.objects[name].meta)
    requires OwnerIn(w.objects[name].meta.labels) == labelOf(m)
    requires m in w.actors && w.actors[m] == Holding(name, w.objects[name], MetaFor(labelOf, m))
    ensures ActorStep(labelOf, m, w, w') && w'.actors == w.actors[m := Idle]
    ensures name in w'.objects && OwnerIn(w'.objects[name].meta.annotations) == m
  {
    var held := w.actors[m];
    var merged := MergedMeta(held.copy.meta, held.desired);
    assert BuiltFor(labelOf, m, held.desired) && SameOwner(held.copy.meta, held.desired);
    MergeKeepsOwner(labelOf, m, held.copy.meta, held.desired);
    w' := World(w.objects[name := Object(w.revision + 1, merged)], w.revision + 1, w.actors[m := Idle]);
    assert WriteStep(m, w, w');
  }

  /** A delete on an older copy that shows only the shared label. */
  lemma Deletes(labelOf: Owner -> Owner, n: Owner, m: Owner, w: World, name: string) returns (w': World)
    requires n != m && Present(m) && name in w.objects && OwnerIn(w.objects[name].meta.annotations) == m
    requires n in w.actors && w.actors[n].Holding? && w.actors[n].name == name && w.actors[n].desired == MetaFor(labelOf, n)
    requires LabelOnly(w.actors[n].copy.meta) && OwnerIn(w.actors[n].copy.meta.labels) == labelOf(n)
    ensures ActorStep(labelOf, n, w, w') && !Respected(labelOf, w, w', n, name)
  {
    w' := w.(objects := w.objects - {name}, actors := w.actors[n := Idle]);
    assert SameOwner(w.actors[n].copy.meta, w.actors[n].desired);
    assert DeleteStep(n, w, w');
  }

  lemma RunOfFour(labelOf: Owner -> Owner, nets: set<Owner>, start: World, w1: World, w2: World, w3: World, w4: World)
    requires NetStep(labelOf, nets, start, w1) && NetStep(labelOf, nets, w1, w2)
    requires NetStep(labelOf, nets, w2, w3) && NetStep(labelOf, nets, w3, w4)
    ensures RunFrom(labelOf, nets, start, [start, w1, w2, w3, w4])
  {
    FourSteps(w => w == start, (w, w') => NetStep(labelOf, nets, w, w'), start, w1, w2, w3, w4);
  }

  /**
   Exactly when networks never touch each other's objects, over all interleavings of their
   creates, reads, updates and deletes: if at the start no object is marked only by labels
   that two of them share.
   */
  lemma ForeignObjectsAreSafeExactly(labelOf: Owner -> Owner, nets: set<Owner>, start: World)
    requires Init(start) && forall n <- nets :: Present(n)
    ensures (forall worlds, j, n, name :: !Violation(labelOf, nets, start, worlds, j, n, name)) <==>
            Unambiguous(labelOf, nets, start)
  {
    if Unambiguous(labelOf, nets, start) {
      forall worlds, j: nat, n, name
        ensures !Violation(labelOf, nets, start, worlds, j, n, name)
      {
        UnambiguousIsSafe(labelOf, nets, start, worlds, j, n, name);
      }
    } else {
      var name, n, m :| name in start.objects && n in nets && m in nets && n != m && LabelOnly(start.objects[name].meta) &&
        OwnerIn(start.objects[name].meta.labels) == labelOf(n) == labelOf(m);
      var worlds := SharedLabelViolates(labelOf, nets, start, name, n, m);
    }
  }

  /** The labels of the program are sanitized names, and different networks can share them. */
  lemma SanitizedLabelsCollide(hash: Hash)
    ensures Sanitized(hash, "a.b") == Sanitized(hash, "a-b")
  {
    assert "a.b" == "a" + ['.'] + "b" && "a-b" == "a" + ['-'] + "b";
    WordsConcat("a", '.', "b");
    WordsConcat("a", '-', "b");
  }

  // ------------------------------------------------------------- what deletes rely on besides

  /** The copy in n's hands lets n delete what is now under that name, whoever made it. */
  ghost predicate HoldsOwn(w: World, n: Owner) {
    n in w.actors && w.actors[n].Holding? && HasOwner(w.actors[n].copy.meta) &&
    SameOwner(w.actors[n].copy.meta, w.actors[n].desired)
  }

  /**
   Only the reconcilers may delete: if someone else removes an object that n has listed and
   another network then creates one of that name, n's delete removes the other network's
   object.
   */
  lemma DeleteAfterOutsideRemoval(labelOf: Owner -> Owner, w: World, n: Owner, m: Owner, meta: Meta)
    returns (removed: World, created: World, deleted: World)
    requires HoldsOwn(w, n) && BuiltFor(labelOf, m, meta) && m != n
    ensures removed == w.(objects := w.objects - {w.actors[n].name})
    ensures CreateStep(labelOf, m, removed, created) && DeleteStep(n, created, deleted)
    ensures !Respected(labelOf, created, deleted, n, w.actors[n].name)
  {
    var name := w.actors[n].name;
    removed := w.(objects := w.objects - {name});
    created := removed.(objects := removed.objects[name := Object(w.revision + 1, meta)], revision := w.revision + 1);
    deleted := created.(objects := created.objects - {name}, actors := created.actors[n := Idle]);
    assert name !in removed.objects && BuiltFor(labelOf, m, meta);
  }

  /** And lists may not be stale: n deletes its own object, m takes the name, and n deletes what an old list shows. */
  lemma DeleteFromStaleList(labelOf: Owner -> Owner, w: World, n: Owner, m: Owner, meta: Meta)
    returns (gone: World, created: World, listed: World, deleted: World)
    requires HoldsOwn(w, n) && CopyOk(labelOf, w, n) && BuiltFor(labelOf, m, meta) && m != n
    ensures DeleteStep(n, w, gone) && CreateStep(labelOf, m, gone, created)
    ensures StaleReadStep(labelOf, n, created, listed) && DeleteStep(n, listed, deleted)
    ensures !Respected(labelOf, listed, deleted, n, w.actors[n].name)
  {
    var held := w.actors[n];
    gone := w.(objects := w.objects - {held.name}, actors := w.actors[n := Idle]);
    created := gone.(objects := gone.objects[held.name := Object(w.revision + 1, meta)], revision := w.revision + 1);
    assert held.name !in gone.objects && BuiltFor(labelOf, m, meta);
    listed := created.(actors := created.actors[n := held]);
    assert StaleRead(labelOf, n, created, listed, held.name, held.copy, held.desired);
    deleted := listed.(objects := listed.objects - {held.name}, actors := listed.actors[n := Idle]);
  }
}
