/** Kahn's algorithm: visiting nodes whose predecessors have all been visited. */
module Kahn {
  import opened Collections
  import opened Graphs

  ghost function Predecessors<T>(adj: map<T, set<T>>, n: T): set<T>
  {
    set m | m in adj && n in adj[m]
  }

  /** The number of predecessors of n still to be visited once `done` has been visited. */
  ghost function Unvisited<T>(adj: map<T, set<T>>, done: set<T>, n: T): nat
  {
    |Predecessors(adj, n) - done|
  }

  lemma {:induction false} NoneUnvisited<T(!new)>(adj: map<T, set<T>>, done: set<T>, n: T)
    requires Unvisited(adj, done, n) == 0
    ensures forall a :: Step(adj, a, n) ==> a in done
  {
    var left := Predecessors(adj, n) - done;
    forall a | Step(adj, a, n)
      ensures a in done
    {
      assert a in Predecessors(adj, n) && (a in done || a in left);
    }
  }

  lemma {:induction false} SomeUnvisited<T(!new)>(adj: map<T, set<T>>, done: set<T>, n: T)
    requires Unvisited(adj, done, n) > 0
    ensures PrecededWithin(adj, adj.Keys - done, n)
  {
    var m :| m in Predecessors(adj, n) - done;
    assert Step(adj, m, n);
  }

  lemma {:induction false} VisitingLowersSuccessors<T(!new)>(adj: map<T, set<T>>, done: set<T>, node: T, n: T)
    requires node in adj && node !in done
    ensures Unvisited(adj, done, n) == Unvisited(adj, done + {node}, n) + if n in adj[node] then 1 else 0
  {
    var before := Predecessors(adj, n) - done;
    var after := Predecessors(adj, n) - (done + {node});
    if n in adj[node] {
      assert before == after + {node};
    } else {
      assert before == after;
    }
  }

  /** The counter of each unvisited node is the number of its unvisited predecessors. */
  ghost predicate Counted<T(!new)>(adj: map<T, set<T>>, done: set<T>, indegrees: map<T, int>)
  {
    && indegrees.Keys == adj.Keys
    && forall n {:trigger Unvisited(adj, done, n)} :: n in adj && n !in done ==> indegrees[n] == Unvisited(adj, done, n)
  }

  /** The queue holds, once each, the unvisited nodes whose counter is zero. */
  ghost predicate Queued<T(!new)>(pending: seq<T>, indegrees: map<T, int>, done: set<T>)
  {
    && Distinct(pending)
    && forall n :: n in pending <==> n in indegrees && n !in done && indegrees[n] == 0
  }

  /** Every visited node was visited after all of its predecessors. */
  ghost predicate RanksVisited<T(!new)>(adj: map<T, set<T>>, done: set<T>, rank: map<T, int>, visited: int)
  {
    && rank.Keys == done
    && (forall n :: n in done ==> rank[n] < visited)
    && forall a, b :: b in done && Step(adj, a, b) ==> a in done && rank[a] < rank[b]
  }

  lemma {:induction false} RankNext<T(!new)>(adj: map<T, set<T>>, done: set<T>, rank: map<T, int>, visited: int,
                                      node: T)
    requires RanksVisited(adj, done, rank, visited)
    requires node in adj && node !in done
    requires forall a :: Step(adj, a, node) ==> a in done
    ensures RanksVisited(adj, done + {node}, rank[node := visited], visited + 1)
    ensures adj[node] !! done + {node}
  {
    forall x | x in adj[node]
      ensures x !in done + {node}
    {
      assert Step(adj, node, x);
    }
  }

  method ZeroIndegree<T(==,!new)>(indegrees: map<T, int>) returns (pending: seq<T>)
    ensures Queued(pending, indegrees, {})
  {
    pending := [];
    var todo := indegrees.Keys;
    while todo != {}
      invariant todo <= indegrees.Keys && Distinct(pending)
      invariant forall n :: n in pending <==> n in indegrees && n !in todo && indegrees[n] == 0
    {
      var n :| n in todo;
      todo := todo - {n};
      if indegrees[n] == 0 {
        DistinctAppend(pending, n);
        pending := pending + [n];
      }
    }
  }

  /** Kahn's loop: every node is visited exactly when the graph has no directed cycle. */
  method CountVisited<T(==,!new)>(children: map<T, set<T>>, counts: map<T, int>) returns (visited: nat)
    requires Closed(children) && Counted(children, {}, counts)
    ensures visited == |children| <==> Acyclic(children)
  {
    var indegrees := counts;
    var pending := ZeroIndegree(indegrees);
    visited := 0;
    ghost var done: set<T> := {};
    ghost var rank: map<T, int> := map[];
    while |pending| > 0
      invariant done <= children.Keys && visited == |done|
      invariant Counted(children, done, indegrees)
      invariant Queued(pending, indegrees, done)
      invariant RanksVisited(children, done, rank, visited)
      decreases |children.Keys - done|
    {
      var node := pending[|pending| - 1];
      ReadyToVisit(children, done, rank, visited, indegrees, pending, node);
      rank := rank[node := visited];
      visited := visited + 1;
      ghost var counted := indegrees;
      indegrees, pending := Release(children[node], indegrees, pending[..|pending| - 1], done + {node});
      CountedNext(children, done, node, counted, indegrees);
      OneMoreOf(children.Keys, done, node);
      done := done + {node};
    }
    BlockedWhenIdle(children, done, indegrees);
    VisitedAllIffAcyclic(children, done, rank, visited);
  }

  /** The last queued node may be visited next. */
  lemma {:induction false} ReadyToVisit<T(!new)>(adj: map<T, set<T>>, done: set<T>, rank: map<T, int>, visited: int,
                              indegrees: map<T, int>, pending: seq<T>, node: T)
    requires Closed(adj) && Counted(adj, done, indegrees) && Queued(pending, indegrees, done)
    requires RanksVisited(adj, done, rank, visited)
    requires |pending| > 0 && node == pending[|pending| - 1]
    ensures node in adj && node !in done && adj[node] !! done + {node}
    ensures RanksVisited(adj, done + {node}, rank[node := visited], visited + 1)
    ensures Queued(pending[..|pending| - 1], indegrees, done + {node})
    ensures adj[node] <= indegrees.Keys && forall n :: n in adj[node] ==> indegrees[n] > 0
  {
    assert node in pending;
    assert indegrees[node] == Unvisited(adj, done, node);
    NoneUnvisited(adj, done, node);
    RankNext(adj, done, rank, visited, node);
    QueuedPop(pending, indegrees, done);
    SuccessorsStillCounted(adj, done, node, indegrees);
  }

  /** One visit: lower the counters of the successors and queue the ones that become zero. */
  method Release<T(==,!new)>(successors: set<T>, counts: map<T, int>, queue: seq<T>, ghost done: set<T>)
    returns (indegrees: map<T, int>, pending: seq<T>)
    requires successors <= counts.Keys && successors !! done && Queued(queue, counts, done)
    requires forall n :: n in successors ==> counts[n] > 0
    ensures indegrees.Keys == counts.Keys && Queued(pending, indegrees, done)
    ensures forall n :: n in counts ==> indegrees[n] == counts[n] - if n in successors then 1 else 0
  {
    indegrees, pending := counts, queue;
    var todo := successors;
    while todo != {}
      invariant todo <= successors && indegrees.Keys == counts.Keys
      invariant forall n :: n in counts ==>
        indegrees[n] == counts[n] - if n in successors && n !in todo then 1 else 0
      invariant Queued(pending, indegrees, done)
    {
      var child :| child in todo;
      todo := todo - {child};
      indegrees := indegrees[child := indegrees[child] - 1];
      if indegrees[child] == 0 {
        DistinctAppend(pending, child);
        pending := pending + [child];
      }
    }
  }

  lemma {:induction false} CountedNext<T(!new)>(adj: map<T, set<T>>, done: set<T>, node: T, counts: map<T, int>,
                                         indegrees: map<T, int>)
    requires Counted(adj, done, counts) && indegrees.Keys == counts.Keys
    requires node in adj && node !in done
    requires forall n :: n in counts ==> indegrees[n] == counts[n] - if n in adj[node] then 1 else 0
    ensures Counted(adj, done + {node}, indegrees)
  {
    forall n | n in adj && n !in done + {node}
      ensures indegrees[n] == Unvisited(adj, done + {node}, n)
    {
      VisitingLowersSuccessors(adj, done, node, n);
    }
  }

  lemma {:induction false} SuccessorsStillCounted<T(!new)>(adj: map<T, set<T>>, done: set<T>, node: T, counts: map<T,
                                                    int>)
    requires Closed(adj) && Counted(adj, done, counts)
    requires node in adj && node !in done && adj[node] !! done
    ensures forall n :: n in adj[node] ==> n in counts && counts[n] > 0
  {
    forall n | n in adj[node]
      ensures n in counts && counts[n] > 0
    {
      assert n in adj.Keys;
      VisitingLowersSuccessors(adj, done, node, n);
    }
  }

  lemma {:induction false} BlockedWhenIdle<T(!new)>(adj: map<T, set<T>>, done: set<T>, indegrees: map<T, int>)
    requires Counted(adj, done, indegrees) && Queued([], indegrees, done)
    ensures forall n {:trigger PrecededWithin(adj, adj.Keys - done, n)} ::
      n in adj.Keys - done ==> PrecededWithin(adj, adj.Keys - done, n)
  {
    forall n | n in adj.Keys - done
      ensures PrecededWithin(adj, adj.Keys - done, n)
    {
      SomeUnvisited(adj, done, n);
    }
  }

  lemma {:induction false} QueuedPop<T(!new)>(queue: seq<T>, counts: map<T, int>, done: set<T>)
    requires Queued(queue, counts, done) && |queue| > 0
    ensures Queued(queue[..|queue| - 1], counts, done + {queue[|queue| - 1]})
  {
    DistinctPop(queue);
    var front, last := queue[..|queue| - 1], queue[|queue| - 1];
    assert forall n :: n in front <==> n in queue && n != last by {
      assert forall n :: n in front <==> n in Elements(front);
    }
  }

  lemma {:induction false} VisitedAllIffAcyclic<T(!new)>(adj: map<T, set<T>>, done: set<T>, rank: map<T, int>,
                                                  visited: nat)
    requires Closed(adj) && done <= adj.Keys && visited == |done|
    requires RanksVisited(adj, done, rank, visited)
    requires forall n {:trigger PrecededWithin(adj, adj.Keys - done, n)} ::
      n in adj.Keys - done ==> PrecededWithin(adj, adj.Keys - done, n)
    ensures visited == |adj| <==> Acyclic(adj)
  {
    var stuck := adj.Keys - done;
    assert adj.Keys == done + stuck;
    assert |adj| == |adj.Keys|;
    if stuck == {} {
      var number := (n: T) => if n in rank then rank[n] else 0;
      forall a, b | Step(adj, a, b)
        ensures number(a) < number(b)
      {
        assert b in adj[a] && a in adj && b in adj.Keys && b in done;
      }
      RankedIsAcyclic(adj, number);
    } else {
      var start :| start in stuck;
      assert forall x {:trigger PrecededWithin(adj, stuck, x)} :: x in stuck ==> PrecededWithin(adj, stuck, x);
      PredecessorsFormCycle(adj, stuck, [start]);
    }
  }
}
