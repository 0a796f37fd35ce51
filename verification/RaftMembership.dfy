/**
 Chains of accepted Raft plans: every config on a chain has an admissible consenter list,
 neighbouring lists have intersecting majorities, and exactly which lists can be reached
 without detours.
 */
module RaftMembership {
  import opened Wrappers
  import opened Json
  import opened Consenters
  import opened Membership
  import opened RaftPlan
  import opened RaftPlanLaws

  /** The keys of the consenters of a config. */
  ghost function Members(lib: Library, config: Json): set<Key> {
    match ReadSource(lib, config)
    case Some(source) => KeySet(lib, source.consenters)
    case None => {}
  }

  /** A config the planner can start from: readable, with an admissible consenter list. */
  ghost predicate Admissible(lib: Library, config: Json) {
    ReadSource(lib, config).Some? && ValidSet(lib, ReadSource(lib, config).value.consenters)
  }

  /**
   `next` carries the consenter list that an accepted plan on `config` wrote. Everything
   else may have moved on: committing bumps sequence and versions, and other updates may
   have been committed in between.
   */
  ghost predicate Follows(lib: Library, config: Json, next: Json) {
    exists channel, desired ::
      PlanConfig(lib, config, channel, desired).Some? &&
      CarriesList(lib, next, PlanConfig(lib, config, channel, desired).value)
  }

  ghost predicate CarriesList(lib: Library, next: Json, plan: Plan) {
    ReadSource(lib, next).Some? &&
    Lookup(next, ConsentersPath) == Lookup(plan.updated, ConsentersPath)
  }

  ghost function Configs(lib: Library): Space<Json, Key> {
    Space(c => Members(lib, c), c => Admissible(lib, c), (c, d) => Follows(lib, c, d))
  }

  lemma CarriedSource(lib: Library, next: Json, updated: Json)
    requires ReadSource(lib, next).Some? && ReadSource(lib, updated).Some?
    requires Lookup(next, ConsentersPath) == Lookup(updated, ConsentersPath)
    ensures ReadSource(lib, next).value.consenters == ReadSource(lib, updated).value.consenters
  {
  }

  /** One accepted plan: both lists admissible and at most one key apart. */
  lemma StepSafe(lib: Library, config: Json, next: Json)
    requires RoundTrips(lib) && Follows(lib, config, next)
    ensures Admissible(lib, config) && Admissible(lib, next)
    ensures Distance(Members(lib, config), Members(lib, next)) <= 1
  {
    var channel, desired :| PlanConfig(lib, config, channel, desired).Some? &&
                            CarriesList(lib, next, PlanConfig(lib, config, channel, desired).value);
    PlanHasEffect(lib, config, channel, desired);
    var plan := PlanConfig(lib, config, channel, desired).value;
    CarriedSource(lib, next, plan.updated);
    assert Distance(Members(lib, config), KeySet(lib, desired)) <= 1;
  }

  lemma ConfigsStepSingly(lib: Library)
    requires RoundTrips(lib)
    ensures SingleSteps(Configs(lib))
  {
    forall c, d | Follows(lib, c, d)
      ensures Admissible(lib, c) && Admissible(lib, d) && Distance(Members(lib, c), Members(lib, d)) <= 1
    {
      StepSafe(lib, c, d);
    }
  }

  /** The quorum numbers printed in a plan are the majorities of the two member sets. */
  lemma PlanQuorums(lib: Library, config: Json, channel: string, desired: seq<Consenter>)
    requires RoundTrips(lib) && PlanConfig(lib, config, channel, desired).Some?
    ensures var plan := PlanConfig(lib, config, channel, desired).value;
            plan.currentQuorum == Quorum(|Members(lib, config)|) &&
            plan.desiredQuorum == Quorum(|Members(lib, plan.updated)|)
  {
    PlanHasEffect(lib, config, channel, desired);
    var plan := PlanConfig(lib, config, channel, desired).value;
    KeyCount(lib, ReadSource(lib, config).value.consenters);
    KeyCount(lib, ReadSource(lib, plan.updated).value.consenters);
  }

  /** What holds at every position of a chain of accepted plans. */
  ghost predicate ListSafe(lib: Library, configs: seq<Json>, i: nat)
    requires i < |configs|
  {
    Admissible(lib, configs[i]) && SoundList(lib, ReadSource(lib, configs[i]).value.consenters) &&
    (i + 1 < |configs| ==> QuorumsMeet(Members(lib, configs[i]), Members(lib, configs[i + 1])))
  }

  /**
   Along every chain of accepted plans each consenter list is non-empty with pairwise
   distinct endpoints and no shared certificate, and every majority of one list meets every
   majority of the next.
   */
  lemma AcceptedChainSafe(lib: Library, configs: seq<Json>)
    requires RoundTrips(lib) && Chain(Configs(lib), configs)
    ensures forall i: nat :: i < |configs| ==> ListSafe(lib, configs, i)
  {
    ConfigsStepSingly(lib);
    ChainSafe(Configs(lib), configs);
    forall i: nat | i < |configs|
      ensures ListSafe(lib, configs, i)
    {
      assert SafeAt(Configs(lib), configs, i);
      AdmissibleExactly(lib, ReadSource(lib, configs[i]).value.consenters);
    }
  }

  // ------------------------------------------------------------------------------- routes

  /** A consenter of `goal` fits into every list whose keys are all in `goal`. */
  lemma GoalFits(lib: Library, cs: seq<Consenter>, goal: seq<Consenter>, n: nat)
    requires ValidSet(lib, cs) && ValidSet(lib, goal) && n < |goal|
    requires KeySet(lib, cs) <= KeySet(lib, goal) && KeyOf(lib, goal[n]) !in KeySet(lib, cs)
    ensures ValidSet(lib, cs + [goal[n]])
  {
    forall i | 0 <= i < |cs|
      ensures Compatible(lib, cs[i], goal[n])
    {
      assert KeyOf(lib, cs[i]) in KeySet(lib, goal);
      var j :| 0 <= j < |goal| && KeyOf(lib, goal[j]) == KeyOf(lib, cs[i]);
      assert j != n;
      assert Compatible(lib, goal[j], goal[n]) || Compatible(lib, goal[n], goal[j]);
      SameKeySameCompatibility(lib, goal[j], cs[i], goal[n]);
    }
    ConsistentAppend(lib, cs, goal[n]);
  }

  /** One accepted plan leads to any admissible list at distance one. */
  lemma PlanStep(lib: Library, config: Json, desired: seq<Consenter>) returns (next: Json)
    requires RoundTrips(lib) && Admissible(lib, config) && ValidSet(lib, desired)
    requires Distance(Members(lib, config), KeySet(lib, desired)) <= 1
    ensures Follows(lib, config, next) && Admissible(lib, next)
    ensures ReadSource(lib, next).Some? && Members(lib, next) == KeySet(lib, desired)
  {
    AcceptsExactly(lib, config, "channel", desired);
    PlanHasEffect(lib, config, "channel", desired);
    next := PlanConfig(lib, config, "channel", desired).value.updated;
    assert CarriesList(lib, next, PlanConfig(lib, config, "channel", desired).value);
  }

  /** The next list on the way to `goal`: drop an outsider if there is one, else add a missing member. */
  lemma NextList(lib: Library, cs: seq<Consenter>, goal: seq<Consenter>) returns (next: seq<Consenter>)
    requires ValidSet(lib, cs) && ValidSet(lib, goal)
    requires KeySet(lib, cs) * KeySet(lib, goal) != {} && KeySet(lib, cs) != KeySet(lib, goal)
    ensures ValidSet(lib, next) && Distance(KeySet(lib, cs), KeySet(lib, next)) == 1
    ensures Distance(KeySet(lib, next), KeySet(lib, goal)) == Distance(KeySet(lib, cs), KeySet(lib, goal)) - 1
    ensures KeySet(lib, next) * KeySet(lib, goal) != {}
    ensures !(KeySet(lib, cs) <= KeySet(lib, goal)) ==> KeySet(lib, next) < KeySet(lib, cs)
  {
    var have, want := KeySet(lib, cs), KeySet(lib, goal);
    var shared :| shared in have * want;
    if have <= want {
      var k :| k in want && k !in have;
      var n :| 0 <= n < |goal| && KeyOf(lib, goal[n]) == k;
      next := cs + [goal[n]];
      GoalFits(lib, cs, goal, n);
      KeySetAppend(lib, cs, goal[n]);
      DistanceAfterAddition(have, want, k);
      assert shared in KeySet(lib, next) * want;
    } else {
      var k :| k in have && k !in want;
      var r :| 0 <= r < |cs| && KeyOf(lib, cs[r]) == k;
      next := Without(cs, r);
      WithoutConsistent(lib, cs, r);
      DistanceAfterRemoval(have, want, k);
      assert shared in KeySet(lib, next) * want;
    }
  }

  /**
   From any admissible config to any admissible list that shares a consenter with it, some
   remove-then-add chain of accepted plans has exactly one step per exchanged consenter.
   */
  lemma {:induction false} RouteExists(lib: Library, config: Json, goal: seq<Consenter>) returns (route: seq<Json>)
    requires RoundTrips(lib) && Admissible(lib, config) && ValidSet(lib, goal)
    requires Members(lib, config) * KeySet(lib, goal) != {}
    ensures DirectRoute(Configs(lib), route, KeySet(lib, goal)) && route[0] == config
    ensures RemovesFirst(Configs(lib), route, KeySet(lib, goal))
    decreases Distance(Members(lib, config), KeySet(lib, goal))
  {
    var want := KeySet(lib, goal);
    if Members(lib, config) == want {
      assert want - want == {};
      route := [config];
    } else {
      var list := NextList(lib, ReadSource(lib, config).value.consenters, goal);
      var next := PlanStep(lib, config, list);
      var rest := RouteExists(lib, next, goal);
      route := [config] + rest;
      assert route[1..] == rest && route[1] == rest[0];
    }
  }

  // --------------------------------------------------- when no consenter is shared to begin with

  /** Some current and some desired consenter can stand in one list. */
  ghost predicate SomePairFits(lib: Library, cs: seq<Consenter>, goal: seq<Consenter>) {
    exists i, j :: 0 <= i < |cs| && 0 <= j < |goal| && Compatible(lib, cs[i], goal[j])
  }

  lemma SingletonKeys(lib: Library, c: Consenter)
    ensures KeySet(lib, [c]) == {KeyOf(lib, c)}
  {
    assert [c][0] == c;
  }

  /** Removing consenters one by one until only `c` is left. */
  lemma ShrinkTo(lib: Library, config: Json, c: Consenter) returns (route: seq<Json>)
    requires RoundTrips(lib) && Admissible(lib, config) && c in ReadSource(lib, config).value.consenters
    ensures DirectRoute(Configs(lib), route, {KeyOf(lib, c)}) && route[0] == config
    ensures Admissible(lib, route[|route| - 1]) && Members(lib, route[|route| - 1]) == {KeyOf(lib, c)}
  {
    SingletonKeys(lib, c);
    assert KeyOf(lib, c) in Members(lib, config) * KeySet(lib, [c]);
    route := RouteExists(lib, config, [c]);
    RouteIsChain(Configs(lib), route, {KeyOf(lib, c)});
    AcceptedChainSafe(lib, route);
    assert ListSafe(lib, route, |route| - 1);
  }

  /** From `c` alone to any list with a consenter that fits beside `c`. */
  lemma GrowFrom(lib: Library, config: Json, c: Consenter, goal: seq<Consenter>, n: nat) returns (route: seq<Json>)
    requires RoundTrips(lib) && Admissible(lib, config) && Members(lib, config) == {KeyOf(lib, c)}
    requires ValidSet(lib, goal) && n < |goal| && WellFormed(lib, c) && Compatible(lib, c, goal[n])
    requires KeyOf(lib, c) !in KeySet(lib, goal)
    ensures DirectRoute(Configs(lib), route, KeySet(lib, goal)) && Follows(lib, config, route[0])
    ensures |route| == Distance({KeyOf(lib, c)}, KeySet(lib, goal))
  {
    PairList(lib, c, goal, n);
    var next := PlanStep(lib, config, [c] + [goal[n]]);
    route := RouteExists(lib, next, goal);
  }

  lemma PairList(lib: Library, c: Consenter, goal: seq<Consenter>, n: nat)
    requires ValidSet(lib, goal) && n < |goal| && WellFormed(lib, c) && Compatible(lib, c, goal[n])
    requires KeyOf(lib, c) !in KeySet(lib, goal)
    ensures ValidSet(lib, [c] + [goal[n]])
    ensures var pair := KeySet(lib, [c] + [goal[n]]);
            Distance({KeyOf(lib, c)}, pair) == 1 && pair * KeySet(lib, goal) != {} &&
            Distance(pair, KeySet(lib, goal)) == Distance({KeyOf(lib, c)}, KeySet(lib, goal)) - 1
  {
    PairIsValid(lib, c, goal[n]);
    assert KeyOf(lib, goal[n]) in KeySet(lib, goal);
    PairDistance(KeyOf(lib, c), KeyOf(lib, goal[n]), KeySet(lib, goal));
  }

  lemma PairIsValid(lib: Library, c: Consenter, d: Consenter)
    requires WellFormed(lib, c) && WellFormed(lib, d) && Compatible(lib, c, d)
    ensures ValidSet(lib, [c] + [d]) && KeySet(lib, [c] + [d]) == {KeyOf(lib, c)} + {KeyOf(lib, d)}
  {
    SingletonKeys(lib, c);
    ConsistentAppend(lib, [c], d);
    KeySetAppend(lib, [c], d);
  }

  lemma PairDistance<K>(k: K, l: K, goal: set<K>)
    requires k !in goal && l in goal
    ensures Distance({k}, {k} + {l}) == 1 && ({k} + {l}) * goal != {}
    ensures Distance({k} + {l}, goal) == Distance({k}, goal) - 1
  {
    DistanceAfterAddition({k}, goal, l);
    assert l in ({k} + {l}) * goal;
  }

  /** With a fitting pair: shrink to the old consenter, add the new one, then exchange the rest. */
  lemma RouteThroughPair(lib: Library, config: Json, goal: seq<Consenter>, c: Consenter, n: nat)
    returns (route: seq<Json>)
    requires RoundTrips(lib) && Admissible(lib, config) && ValidSet(lib, goal)
    requires Members(lib, config) !! KeySet(lib, goal)
    requires c in ReadSource(lib, config).value.consenters && n < |goal| && Compatible(lib, c, goal[n])
    ensures Reaches(lib, config, KeySet(lib, goal), route)
  {
    assert KeyOf(lib, c) in Members(lib, config);
    var first := ShrinkTo(lib, config, c);
    var second := GrowFrom(lib, first[|first| - 1], c, goal, n);
    route := first + second;
    ConfigsStepSingly(lib);
    JoinRoutes(Configs(lib), first, {KeyOf(lib, c)}, second, KeySet(lib, goal));
  }

  /** A chain of accepted plans from `config` to the members `goal`, without detours. */
  ghost predicate Reaches(lib: Library, config: Json, goal: set<Key>, route: seq<Json>) {
    DirectRoute(Configs(lib), route, goal) && route[0] == config
  }

  /** A direct route between disjoint lists meets a list that holds a consenter of each. */
  lemma PairOnRoute(lib: Library, config: Json, goal: seq<Consenter>, route: seq<Json>)
    requires RoundTrips(lib) && Admissible(lib, config) && ValidSet(lib, goal)
    requires Members(lib, config) !! KeySet(lib, goal)
    requires Reaches(lib, config, KeySet(lib, goal), route)
    ensures SomePairFits(lib, ReadSource(lib, config).value.consenters, goal)
  {
    ConfigsStepSingly(lib);
    forall c | Admissible(lib, c)
      ensures Members(lib, c) != {}
    {
      var cs := ReadSource(lib, c).value.consenters;
      assert KeyOf(lib, cs[0]) in KeySet(lib, cs);
    }
    assert KeyOf(lib, goal[0]) in KeySet(lib, goal);
    var at, k, l := Crossing(Configs(lib), route, KeySet(lib, goal));
    PairInList(lib, ReadSource(lib, at).value.consenters, ReadSource(lib, config).value.consenters, goal, k, l);
  }

  lemma PairInList(lib: Library, list: seq<Consenter>, cs: seq<Consenter>, goal: seq<Consenter>, k: Key, l: Key)
    requires ValidSet(lib, list) && k != l && k in KeySet(lib, list) && l in KeySet(lib, list)
    requires k in KeySet(lib, cs) && l in KeySet(lib, goal)
    ensures SomePairFits(lib, cs, goal)
  {
    var a :| 0 <= a < |list| && KeyOf(lib, list[a]) == k;
    var b :| 0 <= b < |list| && KeyOf(lib, list[b]) == l;
    var i :| 0 <= i < |cs| && KeyOf(lib, cs[i]) == k;
    var j :| 0 <= j < |goal| && KeyOf(lib, goal[j]) == l;
    assert Compatible(lib, list[a], list[b]) || Compatible(lib, list[b], list[a]);
    SameKeySameCompatibility(lib, list[a], cs[i], list[b]);
    SameKeySameCompatibility(lib, list[b], goal[j], cs[i]);
    SameKeySameCompatibility(lib, cs[i], cs[i], goal[j]);
    SameKeySameCompatibility(lib, list[b], list[b], cs[i]);
  }

  lemma EmptyIntersection<K>(a: set<K>, b: set<K>)
    requires a * b == {}
    ensures a !! b
  {
    forall k <- a
      ensures k !in b
    {
      assert k !in a * b;
    }
  }

  /**
   A chain of accepted plans without detours leads from an admissible config to an
   admissible list exactly when they share a consenter, or one consenter of each can stand
   in one list.
   */
  lemma DirectRouteExactly(lib: Library, config: Json, goal: seq<Consenter>)
    requires RoundTrips(lib) && Admissible(lib, config) && ValidSet(lib, goal)
    ensures (exists route :: Reaches(lib, config, KeySet(lib, goal), route)) <==>
            (Members(lib, config) * KeySet(lib, goal) != {} ||
             SomePairFits(lib, ReadSource(lib, config).value.consenters, goal))
  {
    var cs := ReadSource(lib, config).value.consenters;
    if Members(lib, config) * KeySet(lib, goal) != {} {
      var route := RouteExists(lib, config, goal);
      assert Reaches(lib, config, KeySet(lib, goal), route);
    } else {
      EmptyIntersection(Members(lib, config), KeySet(lib, goal));
      if SomePairFits(lib, cs, goal) {
        var i, j :| 0 <= i < |cs| && 0 <= j < |goal| && Compatible(lib, cs[i], goal[j]);
        var c := cs[i];
        var route := RouteThroughPair(lib, config, goal, c, j);
      }
      forall route | Reaches(lib, config, KeySet(lib, goal), route)
        ensures SomePairFits(lib, cs, goal)
      {
        PairOnRoute(lib, config, goal, route);
      }
    }
  }

  /** No chain of accepted plans is shorter than a direct route. */
  lemma NoShorterRoute(lib: Library, configs: seq<Json>, goal: set<Key>)
    requires RoundTrips(lib) && Chain(Configs(lib), configs) && Members(lib, configs[|configs| - 1]) == goal
    ensures |configs| - 1 >= Distance(Members(lib, configs[0]), goal)
  {
    ConfigsStepSingly(lib);
    NoShorterChain(Configs(lib), configs, goal);
    assert goal - goal == {};
  }
}
