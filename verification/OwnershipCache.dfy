/**
 Ownership when reads come from a cache, as the manager's client serves them: a Get or List
 may answer with any version that the object ever had, also of an object that is long gone.
 Deletes then go by an old copy, and the theorem says exactly when they are still safe: which
 names each network creates decides it.
 */
module OwnershipCache {
  import opened Wrappers
  import opened Runs
  import opened StringMaps
  import opened Ownership

  /** The cluster with every version that ever was, under its name. */
  datatype Archive = Archive(world: World, past: set<(string, Object)>)

  /** Which names a network's builders use. */
  type Allotment = (Owner, string) -> bool

  /** The networks at work, their labels and their names. */
  datatype Setting = Setting(labelOf: Owner -> Owner, own: Allotment, nets: set<Owner>, start: World)

  function Current(w: World): set<(string, Object)> {
    set name <- w.objects :: (name, w.objects[name])
  }

  ghost predicate CreateOwn(x: Setting, n: Owner, w: World, w': World) {
    exists name, meta :: CreateNamed(x, n, w, w', name, meta)
  }

  ghost predicate CreateNamed(x: Setting, n: Owner, w: World, w': World, name: string, meta: Meta) {
    x.own(n, name) && name !in w.objects && BuiltFor(x.labelOf, n, meta) &&
    w' == w.(objects := w.objects[name := Object(w.revision + 1, meta)], revision := w.revision + 1)
  }

  /** Get or List through the cache: any version there ever was. */
  ghost predicate CacheRead(x: Setting, n: Owner, a: Archive, w': World) {
    exists name, copy, desired :: ReadOf(x, n, a, w', name, copy, desired)
  }

  ghost predicate ReadOf(x: Setting, n: Owner, a: Archive, w': World, name: string, copy: Object, desired: Meta) {
    (name, copy) in a.past && BuiltFor(x.labelOf, n, desired) &&
    w' == a.world.(actors := a.world.actors[n := Holding(name, copy, desired)])
  }

  ghost predicate Acts(x: Setting, n: Owner, a: Archive, b: Archive) {
    n in x.nets && b.past == a.past + Current(b.world) &&
    (CreateOwn(x, n, a.world, b.world) || CacheRead(x, n, a, b.world) || WriteStep(n, a.world, b.world) ||
     DeleteStep(n, a.world, b.world))
  }

  ghost predicate Step(x: Setting, a: Archive, b: Archive) {
    (TouchStep(a.world, b.world) && b.past == a.past + Current(b.world)) || exists n :: Acts(x, n, a, b)
  }

  ghost predicate Start(x: Setting, a: Archive) {
    a == Archive(x.start, Current(x.start))
  }

  ghost predicate Reachable(x: Setting, a: Archive) {
    exists run: seq<Archive> :: IsRun(run, a => Start(x, a), (a, b) => Step(x, a, b)) && run[|run| - 1] == a
  }

  /** A step for network n that touches another network's object. */
  ghost predicate Breach(x: Setting, a: Archive, b: Archive, n: Owner, name: string) {
    Reachable(x, a) && Acts(x, n, a, b) && !Respected(x.labelOf, a.world, b.world, n, name)
  }

  // ------------------------------------------------------------------------- the condition

  /** The guard lets n write, and so adopt, an object with this metadata. */
  predicate Adoptable(labelOf: Owner -> Owner, n: Owner, m: Meta) {
    !HasOwner(m) || Claimed(labelOf, n, m)
  }

  /** Network n can come to own an object of this name: by creating it, or one that is there from the start. */
  predicate Entitled(x: Setting, n: Owner, name: string) {
    x.own(n, name) || (name in x.start.objects && Adoptable(x.labelOf, n, x.start.objects[name].meta))
  }

  /** The name is free, or one of the networks can make it free. */
  ghost predicate Freeable(x: Setting, name: string) {
    name !in x.start.objects || exists k <- x.nets :: Adoptable(x.labelOf, k, x.start.objects[name].meta)
  }

  /** One network creates a name that another can have owned before. */
  ghost predicate ContestedBy(x: Setting, name: string, n: Owner, m: Owner) {
    n in x.nets && m in x.nets && n != m && x.own(m, name) && Entitled(x, n, name) && Freeable(x, name)
  }

  ghost predicate Contested(x: Setting) {
    exists name, n, m :: ContestedBy(x, name, n, m)
  }

  // ------------------------------------------------------------------------- the invariant

  ghost predicate VersionsOk(a: Archive) {
    Current(a.world) <= a.past &&
    (forall name, c :: (name, c) in a.past ==> c.version <= a.world.revision) &&
    (forall name <- a.world.objects, c ::
      (name, c) in a.past && a.world.objects[name].version == c.version ==> a.world.objects[name] == c)
  }

  ghost predicate ActorsOk(x: Setting, a: Archive) {
    forall n <- a.world.actors :: a.world.actors[n].Holding? ==>
      BuiltFor(x.labelOf, n, a.world.actors[n].desired) && (a.world.actors[n].name, a.world.actors[n].copy) in a.past
  }

  /** Whoever had a claim at any time was entitled to it. */
  ghost predicate ClaimsEntitled(x: Setting, past: set<(string, Object)>) {
    forall name, c, n <- x.nets :: (name, c) in past && Claimed(x.labelOf, n, c.meta) ==> Entitled(x, n, name)
  }

  /** Over the whole history a name has one claimant among the networks. */
  ghost predicate ClaimsAgree(x: Setting, past: set<(string, Object)>) {
    forall name, c, d, n <- x.nets, m <- x.nets ::
      (name, c) in past && (name, d) in past && Claimed(x.labelOf, n, c.meta) && Claimed(x.labelOf, m, d.meta) ==> n == m
  }

  /** No network has put its annotation on this object. */
  predicate Untouched(x: Setting, m: Meta) {
    !Present(OwnerIn(m.annotations)) || OwnerIn(m.annotations) !in x.nets
  }

  /** What none of the networks annotated is as it was from the start. */
  ghost predicate UntouchedIsOld(x: Setting, a: Archive) {
    forall name <- a.world.objects :: Untouched(x, a.world.objects[name].meta) ==>
      name in x.start.objects && x.start.objects[name].meta == a.world.objects[name].meta &&
      forall c :: (name, c) in a.past ==> c.meta == a.world.objects[name].meta
  }

  /** What nobody may adopt stays. */
  ghost predicate OthersStay(x: Setting, w: World) {
    forall name <- x.start.objects :: !Freeable(x, name) ==>
      name in w.objects && w.objects[name].meta == x.start.objects[name].meta
  }

  ghost predicate Inv(x: Setting, a: Archive) {
    VersionsOk(a) && ActorsOk(x, a) && ClaimsEntitled(x, a.past) && ClaimsAgree(x, a.past) &&
    UntouchedIsOld(x, a) && OthersStay(x, a.world)
  }

  lemma CurrentHolds(w: World, name: string)
    requires name in w.objects
    ensures (name, w.objects[name]) in Current(w)
  {
  }

  lemma StartHasInv(x: Setting, a: Archive)
    requires Ownership.Init(x.start) && Unambiguous(x.labelOf, x.nets, x.start) && Start(x, a)
    ensures Inv(x, a)
  {
    forall name, c | (name, c) in a.past
      ensures name in x.start.objects && x.start.objects[name] == c
    {
    }
  }

  /** Only the holders changed. */
  lemma ReadKeepsInv(x: Setting, n: Owner, a: Archive, b: Archive)
    requires Inv(x, a) && CacheRead(x, n, a, b.world) && b.past == a.past + Current(b.world)
    ensures Inv(x, b)
  {
    assert Current(b.world) == Current(a.world);
    assert b.past == a.past;
  }

  // ------------------------------------------------------- one object more in the history

  /** The past with one new version of `name`. */
  lemma NewVersion(w: World, w': World, name: string, o: Object, past: set<(string, Object)>)
    requires Current(w) <= past && w'.objects == w.objects[name := o]
    ensures past + Current(w') == past + {(name, o)}
  {
    forall e | e in Current(w')
      ensures e in past + {(name, o)}
    {
      if e.0 != name {
        assert e in Current(w);
      }
    }
    CurrentHolds(w', name);
  }

  lemma NewClaims(x: Setting, past: set<(string, Object)>, name: string, o: Object)
    requires ClaimsEntitled(x, past) && ClaimsAgree(x, past)
    requires forall n <- x.nets :: Claimed(x.labelOf, n, o.meta) ==> Entitled(x, n, name)
    requires forall n <- x.nets, m <- x.nets :: Claimed(x.labelOf, n, o.meta) && Claimed(x.labelOf, m, o.meta) ==> n == m
    requires forall d, n <- x.nets, m <- x.nets ::
      (name, d) in past && Claimed(x.labelOf, n, o.meta) && Claimed(x.labelOf, m, d.meta) ==> n == m
    ensures ClaimsEntitled(x, past + {(name, o)}) && ClaimsAgree(x, past + {(name, o)})
  {
  }

  lemma NewVersionsOk(a: Archive, b: Archive, name: string, o: Object)
    requires VersionsOk(a) && b.world.objects == a.world.objects[name := o] && b.past == a.past + {(name, o)}
    requires o.version == a.world.revision + 1 == b.world.revision
    ensures VersionsOk(b)
  {
    forall e | e in Current(b.world)
      ensures e in b.past
    {
      if e.0 != name {
        assert e in Current(a.world);
      }
    }
  }

  /** An object that n annotates, where n had the claim or nobody ever had one. */
  lemma AnnotatedKeepsInv(x: Setting, n: Owner, a: Archive, b: Archive, name: string, o: Object)
    requires Inv(x, a) && n in x.nets && Entitled(x, n, name) && Freeable(x, name)
    requires OwnerIn(o.meta.annotations) == n && Present(n) && o.version == a.world.revision + 1 == b.world.revision
    requires b.world.objects == a.world.objects[name := o] && b.past == a.past + {(name, o)}
    requires forall d, m <- x.nets :: (name, d) in a.past && Claimed(x.labelOf, m, d.meta) ==> m == n
    requires ActorsOk(x, b)
    ensures Inv(x, b)
  {
    NewClaims(x, a.past, name, o);
    NewVersionsOk(a, b, name, o);
    forall other <- b.world.objects | Untouched(x, b.world.objects[other].meta)
      ensures other in x.start.objects && x.start.objects[other].meta == b.world.objects[other].meta
      ensures forall c :: (other, c) in b.past ==> c.meta == b.world.objects[other].meta
    {
      assert other != name;
    }
  }

  // ------------------------------------------------------------------------------ the steps

  lemma CreateKeepsInv(x: Setting, n: Owner, a: Archive, b: Archive)
    requires Inv(x, a) && !Contested(x) && n in x.nets && CreateOwn(x, n, a.world, b.world) && b.past == a.past + Current(b.world)
    ensures Inv(x, b)
  {
    var name, meta :| CreateNamed(x, n, a.world, b.world, name, meta);
    var o := Object(a.world.revision + 1, meta);
    NewVersion(a.world, b.world, name, o, a.past);
    forall d, m | m in x.nets && (name, d) in a.past && Claimed(x.labelOf, m, d.meta)
      ensures m == n
    {
      assert !ContestedBy(x, name, m, n);
    }
    AnnotatedKeepsInv(x, n, a, b, name, o);
  }

  lemma WriteKeepsInv(x: Setting, n: Owner, a: Archive, b: Archive)
    requires Inv(x, a) && n in x.nets && WriteStep(n, a.world, b.world) && b.past == a.past + Current(b.world)
    ensures Inv(x, b)
  {
    var held := a.world.actors[n];
    if b.world.objects == a.world.objects {
      assert b.past == a.past;
    } else {
      var name, o := held.name, b.world.objects[held.name];
      CurrentHolds(a.world, name);
      assert a.world.objects[name] == held.copy;
      MergeKeepsOwner(x.labelOf, n, held.copy.meta, held.desired);
      NewVersion(a.world, b.world, name, o, a.past);
      WriterIsEntitled(x, n, a, name);
      AnnotatedKeepsInv(x, n, a, b, name, o);
    }
  }

  /** Whoever may write the current object is the only one that ever had a claim on its name. */
  lemma WriterIsEntitled(x: Setting, n: Owner, a: Archive, name: string)
    requires Inv(x, a) && n in x.nets && name in a.world.objects && Adoptable(x.labelOf, n, a.world.objects[name].meta)
    ensures Entitled(x, n, name) && Freeable(x, name)
    ensures forall d, m <- x.nets :: (name, d) in a.past && Claimed(x.labelOf, m, d.meta) ==> m == n
  {
    CurrentHolds(a.world, name);
    assert (name, a.world.objects[name]) in a.past;
  }

  lemma DeleterHasClaim(x: Setting, n: Owner, a: Archive)
    requires ActorsOk(x, a) && n in a.world.actors && a.world.actors[n].Holding?
    requires HasOwner(a.world.actors[n].copy.meta) && SameOwner(a.world.actors[n].copy.meta, a.world.actors[n].desired)
    ensures Claimed(x.labelOf, n, a.world.actors[n].copy.meta)
    ensures (a.world.actors[n].name, a.world.actors[n].copy) in a.past
  {
    MergeKeepsOwner(x.labelOf, n, a.world.actors[n].copy.meta, a.world.actors[n].desired);
  }

  /** What n holds a claim on is not something that nobody may adopt. */
  lemma ClaimIsFreeable(x: Setting, n: Owner, a: Archive, name: string, c: Object)
    requires Inv(x, a) && n in x.nets && (name, c) in a.past && Claimed(x.labelOf, n, c.meta)
    ensures Freeable(x, name)
  {
    if name in x.start.objects && !Freeable(x, name) {
      var o := a.world.objects[name];
      assert Untouched(x, o.meta) by {
        if !Untouched(x, o.meta) {
          assert Adoptable(x.labelOf, OwnerIn(o.meta.annotations), o.meta);
        }
      }
    }
  }

  lemma DeleteKeepsInv(x: Setting, n: Owner, a: Archive, b: Archive)
    requires Inv(x, a) && n in x.nets && DeleteStep(n, a.world, b.world) && b.past == a.past + Current(b.world)
    ensures Inv(x, b)
  {
    assert Current(b.world) <= Current(a.world);
    assert b.past == a.past;
    if b.world.objects != a.world.objects {
      DeleterHasClaim(x, n, a);
      ClaimIsFreeable(x, n, a, a.world.actors[n].name, a.world.actors[n].copy);
    }
  }

  lemma TouchKeepsInv(x: Setting, a: Archive, b: Archive)
    requires Inv(x, a) && TouchStep(a.world, b.world) && b.past == a.past + Current(b.world)
    ensures Inv(x, b)
  {
    var name :| name in a.world.objects &&
      b.world == a.world.(objects := a.world.objects[name := Object(a.world.revision + 1, a.world.objects[name].meta)],
                          revision := a.world.revision + 1);
    var o := Object(a.world.revision + 1, a.world.objects[name].meta);
    CurrentHolds(a.world, name);
    NewVersion(a.world, b.world, name, o, a.past);
    assert (name, a.world.objects[name]) in a.past;
    NewClaims(x, a.past, name, o);
    NewVersionsOk(a, b, name, o);
  }

  lemma StepKeepsInv(x: Setting, a: Archive, b: Archive)
    requires Inv(x, a) && !Contested(x) && Step(x, a, b)
    ensures Inv(x, b)
  {
    if TouchStep(a.world, b.world) && b.past == a.past + Current(b.world) {
      TouchKeepsInv(x, a, b);
    } else {
      var n :| Acts(x, n, a, b);
      if CreateOwn(x, n, a.world, b.world) {
        CreateKeepsInv(x, n, a, b);
      } else if CacheRead(x, n, a, b.world) {
        ReadKeepsInv(x, n, a, b);
      } else if WriteStep(n, a.world, b.world) {
        WriteKeepsInv(x, n, a, b);
      } else {
        DeleteKeepsInv(x, n, a, b);
      }
    }
  }

  lemma DeleteRespects(x: Setting, n: Owner, a: Archive, b: Archive, name: string)
    requires Inv(x, a) && n in x.nets && DeleteStep(n, a.world, b.world)
    ensures Respected(x.labelOf, a.world, b.world, n, name)
  {
    if name in a.world.objects && name !in b.world.objects {
      DeleterHasClaim(x, n, a);
      CurrentHolds(a.world, name);
      assert (name, a.world.objects[name]) in a.past;
    }
  }

  lemma WriteRespects(x: Setting, n: Owner, a: Archive, b: Archive, name: string)
    requires Inv(x, a) && n in x.nets && WriteStep(n, a.world, b.world)
    ensures Respected(x.labelOf, a.world, b.world, n, name)
  {
    var held := a.world.actors[n];
    if b.world.objects != a.world.objects {
      MergeKeepsOwner(x.labelOf, n, held.copy.meta, held.desired);
    }
  }

  lemma SafeOtherwise(x: Setting, a: Archive, b: Archive, n: Owner, name: string)
    requires Ownership.Init(x.start) && Unambiguous(x.labelOf, x.nets, x.start) && !Contested(x)
    ensures !Breach(x, a, b, n, name)
  {
    if Reachable(x, a) && Acts(x, n, a, b) {
      ReachableHasInv(x, a);
      if WriteStep(n, a.world, b.world) {
        WriteRespects(x, n, a, b, name);
      } else if DeleteStep(n, a.world, b.world) {
        DeleteRespects(x, n, a, b, name);
      }
    }
  }

  lemma ReachableHasInv(x: Setting, a: Archive)
    requires Ownership.Init(x.start) && Unambiguous(x.labelOf, x.nets, x.start) && !Contested(x) && Reachable(x, a)
    ensures Inv(x, a)
  {
    var run: seq<Archive> :| IsRun(run, a => Start(x, a), (a, b) => Step(x, a, b)) && run[|run| - 1] == a;
    forall a | Start(x, a)
      ensures Inv(x, a)
    {
      StartHasInv(x, a);
    }
    forall a, b | Inv(x, a) && Step(x, a, b)
      ensures Inv(x, b)
    {
      StepKeepsInv(x, a, b);
    }
    InvariantHolds(run, a => Start(x, a), (a, b) => Step(x, a, b), a => Inv(x, a), |run| - 1);
  }

  // ------------------------------------------------------------------ what happens otherwise

  lemma StartReachable(x: Setting) returns (a: Archive)
    ensures Start(x, a) && Reachable(x, a)
  {
    a := Archive(x.start, Current(x.start));
    assert IsRun([a], a => Start(x, a), (a, b) => Step(x, a, b)) && [a][0] == a;
  }

  lemma Then(x: Setting, n: Owner, a: Archive, w': World) returns (b: Archive)
    requires Reachable(x, a) && n in x.nets
    requires CreateOwn(x, n, a.world, w') || CacheRead(x, n, a, w') || WriteStep(n, a.world, w') || DeleteStep(n, a.world, w')
    ensures b == Archive(w', a.past + Current(w')) && Acts(x, n, a, b) && Reachable(x, b)
  {
    b := Archive(w', a.past + Current(w'));
    assert Acts(x, n, a, b);
    Extended(x, a, b);
  }

  lemma Extended(x: Setting, a: Archive, b: Archive)
    requires Reachable(x, a) && Step(x, a, b)
    ensures Reachable(x, b)
  {
    var run: seq<Archive> :| IsRun(run, a => Start(x, a), (a, b) => Step(x, a, b)) && run[|run| - 1] == a;
    RunExtends(run, a => Start(x, a), (a, b) => Step(x, a, b), b);
    assert (run + [b])[|run|] == b;
  }

  /** Reading an archived version. */
  lemma Reads(x: Setting, n: Owner, a: Archive, name: string, copy: Object) returns (b: Archive)
    requires Reachable(x, a) && n in x.nets && Present(n) && (name, copy) in a.past
    ensures Reachable(x, b) && b.world == a.world.(actors := a.world.actors[n := Holding(name, copy, MetaFor(x.labelOf, n))])
    ensures a.past <= b.past
  {
    var w' := a.world.(actors := a.world.actors[n := Holding(name, copy, MetaFor(x.labelOf, n))]);
    assert BuiltFor(x.labelOf, n, MetaFor(x.labelOf, n));
    assert ReadOf(x, n, a, w', name, copy, MetaFor(x.labelOf, n));
    b := Then(x, n, a, w');
  }

  lemma GuardPasses(labelOf: Owner -> Owner, n: Owner, m: Meta)
    requires Adoptable(labelOf, n, m)
    ensures SameOwner(m, MetaFor(labelOf, n))
  {
  }

  /** Deleting by an archived version on which n has a claim. */
  lemma DeletesBy(x: Setting, n: Owner, a: Archive, name: string, copy: Object) returns (b: Archive, c: Archive)
    requires Reachable(x, a) && n in x.nets && Present(n) && (name, copy) in a.past && Claimed(x.labelOf, n, copy.meta)
    ensures Reachable(x, b) && b.world.objects == a.world.objects && b.world.revision == a.world.revision
    ensures Acts(x, n, b, c) && Reachable(x, c) && c.world.objects == a.world.objects - {name} && a.past <= c.past
  {
    b := Reads(x, n, a, name, copy);
    GuardPasses(x.labelOf, n, copy.meta);
    var w' := b.world.(objects := b.world.objects - {name}, actors := b.world.actors[n := Idle]);
    assert DeleteStep(n, b.world, w');
    c := Then(x, n, b, w');
  }

  /** A state in which the name is free and the archive has a version on which n has a claim. */
  ghost predicate Left(x: Setting, a: Archive, n: Owner, name: string, copy: Object) {
    Reachable(x, a) && name !in a.world.objects && (name, copy) in a.past && Claimed(x.labelOf, n, copy.meta)
  }

  lemma Creates(x: Setting, m: Owner, a: Archive, name: string) returns (b: Archive, o: Object)
    requires Reachable(x, a) && m in x.nets && Present(m) && x.own(m, name) && name !in a.world.objects
    ensures Reachable(x, b) && a.past <= b.past && (name, o) in b.past
    ensures b.world.objects == a.world.objects[name := o] && OwnerIn(o.meta.annotations) == m
  {
    var meta := MetaFor(x.labelOf, m);
    o := Object(a.world.revision + 1, meta);
    var w' := a.world.(objects := a.world.objects[name := o], revision := a.world.revision + 1);
    assert BuiltFor(x.labelOf, m, meta);
    assert CreateNamed(x, m, a.world, w', name, meta);
    b := Then(x, m, a, w');
    CurrentHolds(w', name);
  }

  /** m takes the name, and n deletes what an old list shows. */
  lemma LeftIsBreached(x: Setting, a: Archive, n: Owner, m: Owner, name: string, copy: Object) returns (b: Archive, c: Archive)
    requires Left(x, a, n, name, copy) && n in x.nets && m in x.nets && n != m && Present(n) && Present(m) && x.own(m, name)
    ensures Breach(x, b, c, n, name)
  {
    var created, o := Creates(x, m, a, name);
    b, c := DeletesBy(x, n, created, name, copy);
  }

  /** n creates the name and gives it up again. */
  lemma CreatesAndLeaves(x: Setting, n: Owner, a: Archive, name: string) returns (b: Archive, copy: Object)
    requires Reachable(x, a) && n in x.nets && Present(n) && x.own(n, name) && name !in a.world.objects
    ensures Left(x, b, n, name, copy)
  {
    var created;
    created, copy := Creates(x, n, a, name);
    var listed;
    listed, b := DeletesBy(x, n, created, name, copy);
  }

  /** k takes over an object that is there from the start, if need be, and removes it. */
  lemma TakesAndLeaves(x: Setting, k: Owner, name: string) returns (b: Archive, copy: Object)
    requires k in x.nets && Present(k) && name in x.start.objects && Adoptable(x.labelOf, k, x.start.objects[name].meta)
    ensures Left(x, b, k, name, copy)
  {
    var a := StartReachable(x);
    CurrentHolds(x.start, name);
    copy := x.start.objects[name];
    if !HasOwner(copy.meta) {
      a, copy := TakesOver(x, k, a, name);
    }
    var listed;
    listed, b := DeletesBy(x, k, a, name, copy);
  }

  lemma TakesOver(x: Setting, k: Owner, a: Archive, name: string) returns (b: Archive, o: Object)
    requires Reachable(x, a) && k in x.nets && Present(k) && name in a.world.objects && Current(a.world) <= a.past
    requires Adoptable(x.labelOf, k, a.world.objects[name].meta)
    ensures Reachable(x, b) && a.past <= b.past && (name, o) in b.past && Claimed(x.labelOf, k, o.meta)
    ensures b.world.objects == a.world.objects[name := o] && OwnerIn(o.meta.annotations) == k
  {
    CurrentHolds(a.world, name);
    var listed := Reads(x, k, a, name, a.world.objects[name]);
    var held := listed.world.actors[k];
    GuardPasses(x.labelOf, k, held.copy.meta);
    assert BuiltFor(x.labelOf, k, held.desired);
    MergeKeepsOwner(x.labelOf, k, held.copy.meta, held.desired);
    o := Object(listed.world.revision + 1, MergedMeta(held.copy.meta, held.desired));
    var w' := World(listed.world.objects[name := o], listed.world.revision + 1, listed.world.actors[k := Idle]);
    assert WriteStep(k, listed.world, w');
    b := Then(x, k, listed, w');
    CurrentHolds(w', name);
  }

  lemma ContestedIsBreached(x: Setting, name: string, n: Owner, m: Owner) returns (b: Archive, c: Archive)
    requires ContestedBy(x, name, n, m) && forall k <- x.nets :: Present(k)
    ensures Breach(x, b, c, n, name)
  {
    var left, copy;
    if name in x.start.objects && Adoptable(x.labelOf, n, x.start.objects[name].meta) {
      left, copy := TakesAndLeaves(x, n, name);
    } else if name !in x.start.objects {
      var a := StartReachable(x);
      left, copy := CreatesAndLeaves(x, n, a, name);
    } else {
      var k :| k in x.nets && Adoptable(x.labelOf, k, x.start.objects[name].meta);
      var freed, _ := TakesAndLeaves(x, k, name);
      left, copy := CreatesAndLeaves(x, n, freed, name);
    }
    b, c := LeftIsBreached(x, left, n, m, name, copy);
  }

  /** Two networks with one label: m adopts what only that label marks, and n deletes by the copy from before. */
  lemma AmbiguousIsBreached(x: Setting, name: string, n: Owner, m: Owner) returns (b: Archive, c: Archive)
    requires n in x.nets && m in x.nets && n != m && Present(n) && Present(m)
    requires name in x.start.objects && LabelOnly(x.start.objects[name].meta)
    requires OwnerIn(x.start.objects[name].meta.labels) == x.labelOf(n) == x.labelOf(m)
    ensures Breach(x, b, c, n, name)
  {
    var a := StartReachable(x);
    CurrentHolds(x.start, name);
    var copy := x.start.objects[name];
    var adopted, o := TakesOver(x, m, a, name);
    b, c := DeletesBy(x, n, adopted, name, copy);
  }

  /**
   With reads from the cache, networks never touch each other's annotated objects if and only
   if at the start no object is marked only by labels that two of them share, and no network
   creates a name that another one creates too, or can take over from the start, unless
   someone outside keeps the name occupied.
   */
  lemma CachedDeletesAreSafeExactly(x: Setting)
    requires Ownership.Init(x.start) && forall n <- x.nets :: Present(n)
    ensures (forall a, b, n, name :: !Breach(x, a, b, n, name)) <==>
            Unambiguous(x.labelOf, x.nets, x.start) && !Contested(x)
  {
    if !Unambiguous(x.labelOf, x.nets, x.start) {
      var name, n, m :| name in x.start.objects && n in x.nets && m in x.nets && n != m &&
        LabelOnly(x.start.objects[name].meta) && OwnerIn(x.start.objects[name].meta.labels) == x.labelOf(n) == x.labelOf(m);
      var a, b := AmbiguousIsBreached(x, name, n, m);
    } else if Contested(x) {
      var name, n, m :| ContestedBy(x, name, n, m);
      var a, b := ContestedIsBreached(x, name, n, m);
    } else {
      forall a, b, n, name
        ensures !Breach(x, a, b, n, name)
      {
        SafeOtherwise(x, a, b, n, name);
      }
    }
  }
}
