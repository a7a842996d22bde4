/** Directed graphs given by their successor sets: paths, reachability, cycles. */
module Graphs {
  import opened Collections

  ghost predicate Step<T>(adj: map<T, set<T>>, a: T, b: T)
  {
    a in adj && b in adj[a]
  }

  ghost predicate IsPath<T>(adj: map<T, set<T>>, p: seq<T>)
  {
    && |p| > 0
    && forall i :: 0 <= i < |p| - 1 ==> Step(adj, p[i], p[i + 1])
  }

  ghost predicate IsPathBetween<T>(adj: map<T, set<T>>, p: seq<T>, a: T, b: T)
  {
    IsPath(adj, p) && p[0] == a && p[|p| - 1] == b
  }

  ghost predicate Reaches<T(!new)>(adj: map<T, set<T>>, a: T, b: T)
  {
    exists p :: IsPathBetween(adj, p, a, b)
  }

  /** No edge can be closed into a directed cycle. */
  ghost predicate Acyclic<T(!new)>(adj: map<T, set<T>>)
  {
    forall a, b :: Step(adj, a, b) ==> !Reaches(adj, b, a)
  }

  /** Every successor is itself a node of the graph. */
  ghost predicate Closed<T>(adj: map<T, set<T>>)
  {
    forall a :: a in adj ==> adj[a] <= adj.Keys
  }

  lemma {:induction false} ReachesSelf<T(!new)>(adj: map<T, set<T>>, a: T)
    ensures Reaches(adj, a, a)
  {
    assert IsPathBetween(adj, [a], a, a);
  }

  lemma {:induction false} ReachesByStep<T(!new)>(adj: map<T, set<T>>, a: T, b: T)
    requires Step(adj, a, b)
    ensures Reaches(adj, a, b)
  {
    assert IsPathBetween(adj, [a, b], a, b);
  }

  lemma {:induction false} ReachesTransitive<T(!new)>(adj: map<T, set<T>>, a: T, b: T, c: T)
    requires Reaches(adj, a, b) && Reaches(adj, b, c)
    ensures Reaches(adj, a, c)
  {
    var p :| IsPathBetween(adj, p, a, b);
    var q :| IsPathBetween(adj, q, b, c);
    var r := p + q[1..];
    forall i | 0 <= i < |r| - 1
      ensures Step(adj, r[i], r[i + 1])
    {
      if i < |p| - 1 {
        assert Step(adj, p[i], p[i + 1]);
      } else {
        assert Step(adj, q[i - |p| + 1], q[i - |p| + 2]);
      }
    }
    assert IsPathBetween(adj, r, a, c);
  }

  lemma {:induction false} PathTail<T(!new)>(adj: map<T, set<T>>, p: seq<T>)
    requires IsPath(adj, p) && |p| > 1
    ensures IsPath(adj, p[1..])
  {
    forall i | 0 <= i < |p[1..]| - 1
      ensures Step(adj, p[1..][i], p[1..][i + 1])
    {
      assert Step(adj, p[i + 1], p[i + 2]);
    }
  }

  lemma {:induction false} PathPrefix<T(!new)>(adj: map<T, set<T>>, p: seq<T>, n: nat)
    requires IsPath(adj, p) && 0 < n <= |p|
    ensures IsPath(adj, p[..n])
  {
    forall i | 0 <= i < n - 1
      ensures Step(adj, p[..n][i], p[..n][i + 1])
    {
      assert Step(adj, p[i], p[i + 1]);
    }
  }

  lemma {:induction false} PathExtendedBackwards<T(!new)>(adj: map<T, set<T>>, a: T, p: seq<T>)
    requires IsPath(adj, p) && Step(adj, a, p[0])
    ensures IsPath(adj, [a] + p)
  {
    var longer := [a] + p;
    forall i | 0 <= i < |longer| - 1
      ensures Step(adj, longer[i], longer[i + 1])
    {
      if i > 0 {
        assert Step(adj, p[i - 1], p[i]);
      }
    }
  }

  lemma {:induction false} PathStaysInside<T(!new)>(adj: map<T, set<T>>, inside: set<T>, p: seq<T>)
    requires IsPath(adj, p) && p[0] in inside
    requires forall a, b :: a in inside && Step(adj, a, b) ==> b in inside
    ensures p[|p| - 1] in inside
    decreases |p|
  {
    if |p| > 1 {
      assert Step(adj, p[0], p[1]);
      var tail := p[1..];
      PathTail(adj, p);
      PathStaysInside(adj, inside, tail);
    }
  }

  /** A set that no edge leaves contains everything reachable from its members. */
  lemma {:induction false} ReachesStaysInside<T(!new)>(adj: map<T, set<T>>, inside: set<T>, a: T, b: T)
    requires Reaches(adj, a, b) && a in inside
    requires forall x, y :: x in inside && Step(adj, x, y) ==> y in inside
    ensures b in inside
  {
    var p :| IsPathBetween(adj, p, a, b);
    PathStaysInside(adj, inside, p);
  }

  lemma {:induction false} PathImage<T(!new), U(!new)>(adj: map<T, set<T>>, image: map<U, set<U>>, f: T -> U, p: seq<T>)
    requires IsPath(adj, p)
    requires forall a, b :: Step(adj, a, b) ==> f(a) == f(b) || Step(image, f(a), f(b))
    ensures Reaches(image, f(p[0]), f(p[|p| - 1]))
    decreases |p|
  {
    if |p| == 1 {
      ReachesSelf(image, f(p[0]));
    } else {
      assert Step(adj, p[0], p[1]);
      var tail := p[1..];
      PathTail(adj, p);
      PathImage(adj, image, f, tail);
      if f(p[0]) != f(p[1]) {
        ReachesByStep(image, f(p[0]), f(p[1]));
        ReachesTransitive(image, f(p[0]), f(p[1]), f(p[|p| - 1]));
      }
    }
  }

  /** Reachability is kept by a map that sends each edge to an edge or collapses it. */
  lemma {:induction false} ReachesImage<T(!new), U(!new)>(adj: map<T, set<T>>, image: map<U, set<U>>, f: T -> U, a: T,
                                          b: T)
    requires Reaches(adj, a, b)
    requires forall x, y :: Step(adj, x, y) ==> f(x) == f(y) || Step(image, f(x), f(y))
    ensures Reaches(image, f(a), f(b))
  {
    var p :| IsPathBetween(adj, p, a, b);
    PathImage(adj, image, f, p);
  }

  lemma {:induction false} ReachesMonotone<T(!new)>(adj: map<T, set<T>>, larger: map<T, set<T>>, a: T, b: T)
    requires Reaches(adj, a, b)
    requires forall x, y :: Step(adj, x, y) ==> Step(larger, x, y)
    ensures Reaches(larger, a, b)
  {
    ReachesImage(adj, larger, x => x, a, b);
  }

  lemma {:induction false} PathSimulated<T(!new)>(adj: map<T, set<T>>, other: map<T, set<T>>, p: seq<T>)
    requires IsPath(adj, p)
    requires forall a, b :: Step(adj, a, b) ==> Reaches(other, a, b)
    ensures Reaches(other, p[0], p[|p| - 1])
    decreases |p|
  {
    if |p| == 1 {
      ReachesSelf(other, p[0]);
    } else {
      assert Step(adj, p[0], p[1]);
      var tail := p[1..];
      PathTail(adj, p);
      PathSimulated(adj, other, tail);
      ReachesTransitive(other, p[0], p[1], p[|p| - 1]);
    }
  }

  /** A graph in which every edge of another can be walked keeps its reachability. */
  lemma {:induction false} ReachesSimulated<T(!new)>(adj: map<T, set<T>>, other: map<T, set<T>>, a: T, b: T)
    requires Reaches(adj, a, b)
    requires forall x, y :: Step(adj, x, y) ==> Reaches(other, x, y)
    ensures Reaches(other, a, b)
  {
    var p :| IsPathBetween(adj, p, a, b);
    PathSimulated(adj, other, p);
  }

  /** Reversing every edge reverses reachability. */
  lemma {:induction false} ReachesReversed<T(!new)>(adj: map<T, set<T>>, reversed: map<T, set<T>>, a: T, b: T)
    requires forall x, y :: Step(adj, x, y) ==> Step(reversed, y, x)
    requires Reaches(adj, a, b)
    ensures Reaches(reversed, b, a)
  {
    var p :| IsPathBetween(adj, p, a, b);
    var q := seq(|p|, i requires 0 <= i < |p| => p[|p| - 1 - i]);
    forall i | 0 <= i < |q| - 1
      ensures Step(reversed, q[i], q[i + 1])
    {
      assert Step(adj, p[|p| - 2 - i], p[|p| - 2 - i + 1]);
    }
    assert IsPathBetween(reversed, q, b, a);
  }

  lemma {:induction false} PathRankRises<T(!new)>(adj: map<T, set<T>>, rank: T -> int, p: seq<T>)
    requires IsPath(adj, p)
    requires forall a, b :: Step(adj, a, b) ==> rank(a) < rank(b)
    ensures rank(p[0]) <= rank(p[|p| - 1])
    decreases |p|
  {
    if |p| > 1 {
      assert Step(adj, p[0], p[1]);
      var tail := p[1..];
      PathTail(adj, p);
      PathRankRises(adj, rank, tail);
    }
  }

  /** A numbering that rises along every edge excludes cycles. */
  lemma {:induction false} RankedIsAcyclic<T(!new)>(adj: map<T, set<T>>, rank: T -> int)
    requires forall a, b :: Step(adj, a, b) ==> rank(a) < rank(b)
    ensures Acyclic(adj)
  {
    forall a, b | Step(adj, a, b)
      ensures !Reaches(adj, b, a)
    {
      if Reaches(adj, b, a) {
        var p :| IsPathBetween(adj, p, b, a);
        PathRankRises(adj, rank, p);
      }
    }
  }

  ghost predicate PrecededWithin<T(!new)>(adj: map<T, set<T>>, some: set<T>, x: T)
  {
    exists m :: m in some && Step(adj, m, x)
  }

  /** A finite non-empty set in which everybody has a predecessor contains a cycle:
      walking backwards must eventually repeat a node. */
  lemma {:induction false} PredecessorsFormCycle<T(!new)>(adj: map<T, set<T>>, stuck: set<T>, walk: seq<T>)
    requires IsPath(adj, walk) && Distinct(walk)
    requires forall x :: x in walk ==> x in stuck
    requires forall x {:trigger PrecededWithin(adj, stuck, x)} :: x in stuck ==> PrecededWithin(adj, stuck, x)
    ensures !Acyclic(adj)
    decreases |stuck| - |walk|
  {
    assert walk[0] in walk && PrecededWithin(adj, stuck, walk[0]);
    var m :| m in stuck && Step(adj, m, walk[0]);
    if m in walk {
      var j :| 0 <= j < |walk| && walk[j] == m;
      PathPrefix(adj, walk, j + 1);
      assert IsPathBetween(adj, walk[..j + 1], walk[0], m);
    } else {
      PathExtendedBackwards(adj, m, walk);
      DistinctFitsInSet([m] + walk, stuck);
      PredecessorsFormCycle(adj, stuck, [m] + walk);
    }
  }
}
