/**
 Changing the member set of a quorum system one member at a time: majorities of neighbouring
 sets intersect (section 4.1 of Ongaro's Raft dissertation), and routes of single changes.
 The carriers of member sets (channel configs) stay abstract here.
 */
module Membership {

  /** The smallest majority. */
  function Quorum(n: nat): (q: nat)
    ensures 2 * q > n && 2 * (q - 1) <= n
  {
    n / 2 + 1
  }

  /** How many members have to come or go. */
  function Distance<K>(a: set<K>, b: set<K>): nat {
    |a - b| + |b - a|
  }

  // ------------------------------------------------------------------------ quorum overlap

  /** Every majority of one set meets every majority of the other. */
  ghost predicate QuorumsMeet<K(!new)>(a: set<K>, b: set<K>) {
    forall p, q :: p <= a && q <= b && |p| >= Quorum(|a|) && |q| >= Quorum(|b|) ==> p * q != {}
  }

  lemma SubsetSize<K>(s: set<K>, t: set<K>)
    requires s <= t
    ensures |s| <= |t| && |t - s| == |t| - |s|
  {
    assert t == s + (t - s);
  }

  /** Sets that differ in at most one element have intersecting majorities. */
  lemma OneChangeKeepsQuorums<K(!new)>(a: set<K>, b: set<K>)
    requires Distance(a, b) <= 1
    ensures QuorumsMeet(a, b)
  {
    forall p, q | p <= a && q <= b && |p| >= Quorum(|a|) && |q| >= Quorum(|b|)
      ensures p * q != {}
    {
      var common := a * b;
      assert a == common + (a - b) && b == common + (b - a) && a + b == common + (a - b) + (b - a);
      assert |a| == |common| + |a - b| && |b| == |common| + |b - a| && |a + b| == |common| + |a - b| + |b - a|;
      assert |p + q| + |p * q| == |p| + |q|;
      SubsetSize(p + q, a + b);
    }
  }

  lemma {:induction false} TakeSubset<K>(s: set<K>, n: nat) returns (t: set<K>)
    requires n <= |s|
    ensures t <= s && |t| == n
  {
    if n == 0 {
      t := {};
    } else {
      var x :| x in s;
      t := TakeSubset(s - {x}, n - 1);
      t := t + {x};
    }
  }

  /** The rule is tight: adding two members to any set of odd size allows disjoint majorities. */
  lemma TwoAdditionsCanSplit<K(!new)>(a: set<K>, b: set<K>)
    requires |a| % 2 == 1 && a <= b && |b| == |a| + 2
    ensures !QuorumsMeet(a, b)
  {
    var p := TakeSubset(a, Quorum(|a|));
    SubsetSize(p, b);
    assert p <= a && b - p <= b && p * (b - p) == {};
  }

  // ------------------------------------------------------------------------------ distances

  lemma AtMostOne<K>(s: set<K>, t: set<K>, x: K)
    requires x in s && |s| + |t| <= 1
    ensures s == {x} && t == {}
  {
    assert |s - {x}| == 0;
  }

  lemma UnionBound<K>(s: set<K>, t: set<K>, u: set<K>)
    requires s <= t + u
    ensures |s| <= |t| + |u|
  {
    SubsetSize(s, t + u);
    assert |t + u| + |t * u| == |t| + |u|;
  }

  lemma Triangle<K>(a: set<K>, b: set<K>, c: set<K>)
    ensures Distance(a, c) <= Distance(a, b) + Distance(b, c)
  {
    UnionBound(a - c, a - b, b - c);
    UnionBound(c - a, c - b, b - a);
  }

  lemma DistanceAfterRemoval<K>(a: set<K>, goal: set<K>, k: K)
    requires k in a && k !in goal
    ensures Distance(a - {k}, goal) == Distance(a, goal) - 1 && Distance(a, a - {k}) == 1
  {
    assert (a - {k}) - goal == (a - goal) - {k} && goal - (a - {k}) == goal - a;
    assert a - (a - {k}) == {k} && (a - {k}) - a == {};
  }

  lemma DistanceAfterAddition<K>(a: set<K>, goal: set<K>, k: K)
    requires k !in a && k in goal
    ensures Distance(a + {k}, goal) == Distance(a, goal) - 1 && Distance(a, a + {k}) == 1
  {
    assert (a + {k}) - goal == a - goal && goal - (a + {k}) == (goal - a) - {k};
    assert a - (a + {k}) == {} && (a + {k}) - a == {k};
  }

  /** A step that comes one closer to `goal` drops an outsider or adds a member, and nothing more. */
  lemma CloserStep<K>(a: set<K>, b: set<K>, goal: set<K>) returns (k: K)
    requires Distance(a, b) <= 1 && Distance(b, goal) == Distance(a, goal) - 1
    ensures (k in a && k !in goal && b == a - {k}) || (k !in a && k in goal && b == a + {k})
  {
    k := OneApart(a, b, goal);
    if b == a - {k} && k in a {
      assert a == b + {k};
      if k in goal {
        DistanceAfterAddition(b, goal, k);
      }
    } else {
      assert a == b - {k};
      if k !in goal {
        DistanceAfterRemoval(b, goal, k);
      }
    }
  }

  /** Different sets at distance one: the one element that left or came. */
  lemma OneApart<K>(a: set<K>, b: set<K>, goal: set<K>) returns (k: K)
    requires Distance(a, b) <= 1 && Distance(b, goal) != Distance(a, goal)
    ensures (k in a && b == a - {k}) || (k !in a && b == a + {k})
  {
    assert a - b == {} && b - a == {} ==> a == b;
    if a - b != {} {
      k :| k in a - b;
      AtMostOne(a - b, b - a, k);
    } else {
      k :| k in b - a;
      AtMostOne(b - a, a - b, k);
    }
  }

  // -------------------------------------------------------------------------------- chains

  /** Things that carry a member set, and which of them can follow which. */
  datatype Space<!C, !K> = Space(
    members: C -> set<K>,
    admissible: C -> bool,
    follows: (C, C) -> bool)

  ghost predicate SingleSteps<C(!new), K>(s: Space<C, K>) {
    forall a, b :: s.follows(a, b) ==>
      s.admissible(a) && s.admissible(b) && Distance(s.members(a), s.members(b)) <= 1
  }

  ghost predicate Linked<C, K>(s: Space<C, K>, chain: seq<C>, i: nat)
    requires i + 1 < |chain|
  {
    s.follows(chain[i], chain[i + 1])
  }

  ghost predicate Chain<C, K>(s: Space<C, K>, chain: seq<C>) {
    chain != [] && s.admissible(chain[0]) && forall i: nat :: i + 1 < |chain| ==> Linked(s, chain, i)
  }

  ghost predicate SafeAt<C, K(!new)>(s: Space<C, K>, chain: seq<C>, i: nat)
    requires i < |chain|
  {
    s.admissible(chain[i]) &&
    (i + 1 < |chain| ==> QuorumsMeet(s.members(chain[i]), s.members(chain[i + 1])))
  }

  /** Along every chain everything is admissible and neighbouring majorities intersect. */
  lemma ChainSafe<C(!new), K(!new)>(s: Space<C, K>, chain: seq<C>)
    requires SingleSteps(s) && Chain(s, chain)
    ensures forall i: nat :: i < |chain| ==> SafeAt(s, chain, i)
  {
    forall i: nat | i < |chain|
      ensures SafeAt(s, chain, i)
    {
      if i + 1 < |chain| {
        assert Linked(s, chain, i);
        OneChangeKeepsQuorums(s.members(chain[i]), s.members(chain[i + 1]));
      } else if i > 0 {
        assert Linked(s, chain, i - 1);
      }
    }
  }

  /** A chain needs at least as many steps as there are members to exchange. */
  lemma {:induction false} NoShorterChain<C(!new), K>(s: Space<C, K>, chain: seq<C>, goal: set<K>)
    requires SingleSteps(s) && Chain(s, chain)
    ensures Distance(s.members(chain[0]), goal) <= |chain| - 1 + Distance(s.members(chain[|chain| - 1]), goal)
    decreases |chain|
  {
    if |chain| > 1 {
      var n := |chain| - 1;
      forall i: nat | i + 1 < n
        ensures Linked(s, chain[..n], i)
      {
        assert Linked(s, chain, i);
      }
      NoShorterChain(s, chain[..n], goal);
      assert Linked(s, chain, n - 1);
      Triangle(s.members(chain[n - 1]), s.members(chain[n]), goal);
    }
  }

  /** A chain to the members `goal` on which every step comes one closer. */
  ghost predicate DirectRoute<C, K>(s: Space<C, K>, chain: seq<C>, goal: set<K>) {
    chain != [] && s.admissible(chain[0]) &&
    Distance(s.members(chain[0]), goal) == |chain| - 1 &&
    (|chain| > 1 ==> s.follows(chain[0], chain[1]) && DirectRoute(s, chain[1..], goal))
  }

  /** As long as there is an outsider, the next step removes a member. */
  ghost predicate RemovesFirst<C, K>(s: Space<C, K>, chain: seq<C>, goal: set<K>) {
    |chain| > 1 ==>
      (!(s.members(chain[0]) <= goal) ==> s.members(chain[1]) < s.members(chain[0])) &&
      RemovesFirst(s, chain[1..], goal)
  }

  /** A direct route is a chain, and it ends at the goal. */
  lemma {:induction false} RouteIsChain<C, K>(s: Space<C, K>, chain: seq<C>, goal: set<K>)
    requires DirectRoute(s, chain, goal)
    ensures Chain(s, chain) && s.members(chain[|chain| - 1]) == goal
  {
    if |chain| == 1 {
      assert s.members(chain[0]) - goal == {} && goal - s.members(chain[0]) == {};
    } else {
      RouteIsChain(s, chain[1..], goal);
      forall i: nat | i + 1 < |chain|
        ensures Linked(s, chain, i)
      {
        if i > 0 {
          assert Linked(s, chain[1..], i - 1);
        }
      }
    }
  }

  /** Going first to a subset of the start, then on to a goal disjoint from the start, loses no step. */
  lemma {:induction false} JoinRoutes<C(!new), K>(s: Space<C, K>, first: seq<C>, mid: set<K>, second: seq<C>, goal: set<K>)
    requires SingleSteps(s) && DirectRoute(s, first, mid) && DirectRoute(s, second, goal)
    requires s.follows(first[|first| - 1], second[0])
    requires mid <= s.members(first[0]) && s.members(first[0]) !! goal && Distance(mid, goal) == |second|
    ensures DirectRoute(s, first + second, goal)
    decreases |first|
  {
    var start := s.members(first[0]);
    ShrinkingDistance(start, mid, goal);
    if |first| == 1 {
      assert first == [first[0]];
      Prepend(s, first[0], second, goal);
    } else {
      var tail := first[1..];
      var k := CloserStep(start, s.members(first[1]), mid);
      assert s.members(tail[0]) == start - {k} && tail[|tail| - 1] == first[|first| - 1];
      JoinRoutes(s, tail, mid, second, goal);
      Prepend(s, first[0], tail + second, goal);
      Regroup(first, second);
    }
  }

  lemma Regroup<C>(first: seq<C>, second: seq<C>)
    requires first != []
    ensures [first[0]] + (first[1..] + second) == first + second
  {
    assert first == [first[0]] + first[1..];
  }

  lemma Prepend<C, K>(s: Space<C, K>, c: C, rest: seq<C>, goal: set<K>)
    requires DirectRoute(s, rest, goal) && s.admissible(c) && s.follows(c, rest[0])
    requires Distance(s.members(c), goal) == |rest|
    ensures DirectRoute(s, [c] + rest, goal)
  {
    var route := [c] + rest;
    assert route[1..] == rest && route[1] == rest[0];
  }

  lemma ShrinkingDistance<K>(a: set<K>, mid: set<K>, goal: set<K>)
    requires mid <= a && a !! goal
    ensures Distance(a, goal) == Distance(a, mid) + Distance(mid, goal)
  {
    SubsetSize(mid, a);
    assert mid - a == {} && a - goal == a && goal - a == goal && mid - goal == mid && goal - mid == goal;
  }

  /**
   A direct route between disjoint sets passes through an admissible carrier that holds a
   member of each.
   */
  lemma {:induction false} Crossing<C(!new), K>(s: Space<C, K>, chain: seq<C>, goal: set<K>) returns (at: C, from: K, to: K)
    requires SingleSteps(s) && DirectRoute(s, chain, goal) && s.members(chain[0]) !! goal
    requires goal != {} && forall c :: s.admissible(c) ==> s.members(c) != {}
    ensures s.admissible(at) && from in s.members(at) && to in s.members(at)
    ensures from in s.members(chain[0]) && to in goal
    decreases |chain|
  {
    var start := s.members(chain[0]);
    assert start - goal == start && |start| > 0;
    var next := s.members(chain[1]);
    var k := CloserStep(start, next, goal);
    if k in goal {
      from :| from in start;
      at, to := chain[1], k;
    } else {
      at, from, to := Crossing(s, chain[1..], goal);
    }
  }
}
