/** Checks of parent links: the memoised walk that visits every node once, and the bounded
    walk that starts again at every record. */
module ParentWalks {
  import opened Wrappers
  import opened Collections
  import opened Graphs

  type Parents = map<string, Option<string>>

  /** An entity, node or record with its parent and, for records, its related records. */
  datatype Link = Link(id: string, parent: Option<string>, related: seq<string>)

  function ParentMap(links: seq<Link>, n: nat): Parents
    requires n <= |links|
  {
    if n == 0 then map[] else ParentMap(links, n - 1)[links[n - 1].id := links[n - 1].parent]
  }

  function Ids(links: seq<Link>): seq<string>
  {
    seq(|links|, i requires 0 <= i < |links| => links[i].id)
  }

  /** Edges from every parent to its children. */
  function Hierarchy(parents: Parents): map<string, set<string>>
  {
    map p | p in parents :: set c | c in parents && parents[c] == Some(p)
  }

  ghost predicate ParentsExist(parents: Parents)
  {
    forall id :: id in parents && parents[id].Some? ==> parents[id].value in parents
  }

  // ---------------------------------------------------------------------------
  // Chains of ancestors
  // ---------------------------------------------------------------------------

  /** The chain above `id` has exactly `n` ancestors. */
  ghost predicate EndsAfter(parents: Parents, id: string, n: nat)
    decreases n
  {
    id in parents && if n == 0 then parents[id].None? else parents[id].Some? && EndsAfter(parents, parents[id].value, n - 1)
  }

  ghost predicate Ends(parents: Parents, id: string)
  {
    exists n: nat :: EndsAfter(parents, id, n)
  }

  ghost predicate EndsFrom(parents: Parents, current: Option<string>)
  {
    current.Some? ==> Ends(parents, current.value)
  }

  lemma {:induction false} EndsAfterUnique(parents: Parents, id: string, m: nat, n: nat)
    requires EndsAfter(parents, id, m) && EndsAfter(parents, id, n)
    ensures m == n
    decreases m
  {
    if m > 0 {
      EndsAfterUnique(parents, parents[id].value, m - 1, n - 1);
    }
  }

  lemma {:induction false} EndsWithParent(parents: Parents, id: string)
    requires id in parents
    ensures Ends(parents, id) <==> EndsFrom(parents, parents[id])
  {
    if EndsFrom(parents, parents[id]) {
      if parents[id].Some? {
        var n: nat :| EndsAfter(parents, parents[id].value, n);
        assert EndsAfter(parents, id, n + 1);
      } else {
        assert EndsAfter(parents, id, 0);
      }
    }
    if Ends(parents, id) && parents[id].Some? {
      var n: nat :| EndsAfter(parents, id, n);
      assert EndsAfter(parents, parents[id].value, n - 1);
    }
  }

  ghost function Ancestors(parents: Parents, id: string): int
  {
    if Ends(parents, id) then var n: nat :| EndsAfter(parents, id, n); n else -1
  }

  /** If every chain ends, the number of ancestors rises from parent to child. */
  lemma {:induction false} EndingChainsAreAcyclic(parents: Parents)
    requires forall id :: id in parents ==> Ends(parents, id)
    ensures Acyclic(Hierarchy(parents))
  {
    var rank := (id: string) => Ancestors(parents, id);
    forall a, b | Step(Hierarchy(parents), a, b)
      ensures rank(a) < rank(b)
    {
      assert EndsAfter(parents, b, Ancestors(parents, a) + 1);
      EndsAfterUnique(parents, b, Ancestors(parents, b), Ancestors(parents, a) + 1);
    }
    RankedIsAcyclic(Hierarchy(parents), rank);
  }

  /** A chain that does not end runs into a cycle. */
  lemma {:induction false} AcyclicChainsEnd(parents: Parents, id: string)
    requires ParentsExist(parents) && Acyclic(Hierarchy(parents)) && id in parents
    ensures Ends(parents, id)
  {
    if !Ends(parents, id) {
      var stuck := set x | x in parents && !Ends(parents, x);
      forall x | x in stuck
        ensures PrecededWithin(Hierarchy(parents), stuck, x)
      {
        EndsWithParent(parents, x);
        assert parents[x].Some? && parents[x].value in stuck && Step(Hierarchy(parents), parents[x].value, x);
      }
      PredecessorsFormCycle(Hierarchy(parents), stuck, [id]);
    }
  }

  // ---------------------------------------------------------------------------
  // The memoised walk
  // ---------------------------------------------------------------------------

  /** Inside one walk: `last` is the node visited last, below `current`. */
  ghost predicate Climbing(parents: Parents, visited: set<string>, last: string, current: Option<string>)
  {
    && visited <= parents.Keys
    && (forall v :: v in visited ==> (EndsFrom(parents, current) ==> Ends(parents, v)))
    && (visited != {} ==> last in visited && parents[last] == current && forall v :: v in visited ==> Reaches(Hierarchy(parents), last, v))
  }

  lemma {:induction false} ClimbNext(parents: Parents, visited: set<string>, last: string, id: string)
    requires id in parents && Climbing(parents, visited, last, Some(id))
    ensures Climbing(parents, visited + {id}, id, parents[id])
  {
    var graph := Hierarchy(parents);
    EndsWithParent(parents, id);
    ReachesSelf(graph, id);
    forall v | v in visited
      ensures Reaches(graph, id, v)
    {
      assert Step(graph, id, last);
      ReachesByStep(graph, id, last);
      ReachesTransitive(graph, id, last, v);
    }
  }

  lemma {:induction false} ClimbedTwice(parents: Parents, visited: set<string>, last: string, id: string)
    requires Climbing(parents, visited, last, Some(id)) && id in visited
    ensures !Acyclic(Hierarchy(parents))
  {
    assert Step(Hierarchy(parents), id, last);
  }

  /** One walk from `start` up to a resolved node or a root. */
  method Climb(parents: Parents, start: string, resolved: set<string>) returns (ok: bool, visited: set<string>)
    requires ParentsExist(parents) && start in parents && resolved <= parents.Keys
    requires forall r :: r in resolved ==> Ends(parents, r)
    ensures visited !! resolved && visited <= parents.Keys
    ensures ok ==> start in visited + resolved && forall v :: v in visited ==> Ends(parents, v)
    ensures !ok ==> !Acyclic(Hierarchy(parents))
  {
    visited := {};
    var current := Some(start);
    ghost var last := start;
    while current.Some? && current.value !in resolved
      invariant visited !! resolved && Climbing(parents, visited, last, current)
      invariant current.Some? ==> current.value in parents
      invariant start in visited || current == Some(start)
      decreases |parents.Keys - visited|
    {
      var id := current.value;
      if id in visited {
        ClimbedTwice(parents, visited, last, id);
        return false, visited;
      }
      ClimbNext(parents, visited, last, id);
      OneMoreOf(parents.Keys, visited, id);
      visited := visited + {id};
      last := id;
      current := parents[id];
    }
    ok := true;
  }

  /** After the first walks: what they visited ends, and every start was visited. */
  ghost predicate Resolved(parents: Parents, order: seq<string>, n: nat, resolved: set<string>)
    requires n <= |order|
  {
    && resolved <= parents.Keys && (forall r :: r in resolved ==> Ends(parents, r))
    && (forall j :: 0 <= j < n ==> order[j] in resolved)
  }

  lemma {:induction false} ResolvedNext(parents: Parents, order: seq<string>, n: nat, resolved: set<string>,
                                        visited: set<string>)
    requires n < |order| && Resolved(parents, order, n, resolved) && visited <= parents.Keys
    requires order[n] in visited + resolved && forall v :: v in visited ==> Ends(parents, v)
    ensures Resolved(parents, order, n + 1, resolved + visited)
  {
  }

  /** Accepts exactly the acyclic hierarchies; `visits` counts all steps of all walks. */
  method RejectCycles(parents: Parents, order: seq<string>) returns (ok: bool, ghost visits: nat)
    requires ParentsExist(parents) && Elements(order) == parents.Keys
    ensures ok <==> Acyclic(Hierarchy(parents))
    ensures visits <= |parents|
  {
    var resolved: set<string> := {};
    visits := 0;
    for i := 0 to |order|
      invariant visits == |resolved|
      invariant Resolved(parents, order, i, resolved)
    {
      assert order[i] in Elements(order);
      var climbed, visited := Climb(parents, order[i], resolved);
      VisitsFit(resolved, visited, parents.Keys);
      visits := visits + |visited|;
      if !climbed {
        return false, visits;
      }
      ResolvedNext(parents, order, i, resolved, visited);
      resolved := resolved + visited;
    }
    SubsetSize(resolved, parents.Keys);
    AllResolved(parents, order, resolved);
    ok := true;
  }

  lemma {:induction false} AllResolved(parents: Parents, order: seq<string>, resolved: set<string>)
    requires Elements(order) == parents.Keys && Resolved(parents, order, |order|, resolved)
    ensures Acyclic(Hierarchy(parents))
  {
    forall id | id in parents
      ensures Ends(parents, id)
    {
      assert id in Elements(order);
    }
    EndingChainsAreAcyclic(parents);
  }

  lemma {:induction false} VisitsFit<T>(done: set<T>, more: set<T>, all: set<T>)
    requires done !! more && done <= all && more <= all
    ensures |done + more| == |done| + |more| <= |all|
  {
    UnionSize(done, more);
    SubsetSize(done + more, all);
  }

  lemma {:induction false} UnionSize<T>(a: set<T>, b: set<T>)
    requires a !! b
    ensures |a + b| == |a| + |b|
  {
  }

  lemma {:induction false} ParentMapKeys(links: seq<Link>, n: nat)
    requires n <= |links|
    ensures ParentMap(links, n).Keys == Elements(Ids(links)[..n])
  {
    if n > 0 {
      ParentMapKeys(links, n - 1);
      PrefixNext(Ids(links), n - 1);
      ElementsOfAppend(Ids(links)[..n - 1], links[n - 1].id);
    }
  }

  method BuildParents(links: seq<Link>) returns (parents: Parents)
    ensures parents == ParentMap(links, |links|) && parents.Keys == Elements(Ids(links))
  {
    parents := map[];
    for i := 0 to |links|
      invariant parents == ParentMap(links, i)
    {
      parents := parents[links[i].id := links[i].parent];
    }
    ParentMapKeys(links, |links|);
    assert Ids(links)[..|links|] == Ids(links);
  }

  ghost predicate Tree(parents: Parents)
  {
    ParentsExist(parents) && Acyclic(Hierarchy(parents))
  }

  /** Entities of a record, entities of a parse plan, and nodes of a batch. */
  method ValidateTree(links: seq<Link>) returns (ok: bool, ghost visits: nat)
    ensures ok <==> Tree(ParentMap(links, |links|))
    ensures visits <= |ParentMap(links, |links|)|
  {
    var parents := BuildParents(links);
    if exists id :: id in parents && parents[id].Some? && parents[id].value !in parents {
      return false, 0;
    }
    ok, visits := RejectCycles(parents, Ids(links));
  }

  ghost predicate ReferencesExist(links: seq<Link>)
  {
    forall l :: l in links ==> (l.parent.Some? ==> l.parent.value in Ids(links)) && forall r :: r in l.related ==> r in Ids(links)
  }

  lemma {:induction false} LastLinkCounts(links: seq<Link>, n: nat, id: string)
    requires n <= |links| && id in ParentMap(links, n)
    ensures exists i :: 0 <= i < n && links[i].id == id && links[i].parent == ParentMap(links, n)[id]
  {
    if n > 0 && links[n - 1].id != id {
      LastLinkCounts(links, n - 1, id);
    }
  }

  /** Records of a normalized batch: all references resolve and no chain is cyclic. */
  method ValidateRecordLinks(links: seq<Link>) returns (ok: bool, ghost visits: nat)
    ensures ok <==> ReferencesExist(links) && Acyclic(Hierarchy(ParentMap(links, |links|)))
    ensures visits <= |ParentMap(links, |links|)|
  {
    var parents := BuildParents(links);
    visits := 0;
    for i := 0 to |links|
      invariant forall j :: 0 <= j < i ==>
                  (links[j].parent.Some? ==> links[j].parent.value in Ids(links)) && forall r :: r in links[j].related ==> r in Ids(links)
    {
      var l := links[i];
      if (l.parent.Some? && l.parent.value !in parents) || exists r :: r in l.related && r !in parents {
        assert forall r :: r in parents <==> r in Ids(links);
        assert l in links;
        return false, 0;
      }
      assert forall r :: r in parents <==> r in Ids(links);
    }
    forall id | id in parents && parents[id].Some?
      ensures parents[id].value in parents
    {
      LastLinkCounts(links, |links|, id);
    }
    ok, visits := RejectCycles(parents, Ids(links));
  }

  // ---------------------------------------------------------------------------
  // The bounded walk
  // ---------------------------------------------------------------------------

  const MAX_ANCESTORS := 32

  ghost predicate Shallow(parents: Parents, id: string)
  {
    exists n: nat :: n <= MAX_ANCESTORS && EndsAfter(parents, id, n)
  }

  /** The walk from `start` has collected `steps` ancestors. */
  ghost predicate Collecting(parents: Parents, start: string, seen: set<string>, last: string, parent: Option<string>,
                             steps: nat)
  {
    && Climbing(parents, seen, last, parent) && last in seen && |seen| == steps + 1
    && forall n: nat :: EndsAfter(parents, start, n) <==> n >= steps && EndsAfter(parents, last, n - steps)
  }

  lemma {:induction false} CollectNext(parents: Parents, start: string, seen: set<string>, last: string, id: string,
                                       steps: nat)
    requires id in parents && id !in seen && Collecting(parents, start, seen, last, Some(id), steps)
    ensures Collecting(parents, start, seen + {id}, id, parents[id], steps + 1)
  {
    ClimbNext(parents, seen, last, id);
    assert parents[last] == Some(id);
    forall n: nat
      ensures EndsAfter(parents, start, n) <==> n >= steps + 1 && EndsAfter(parents, id, n - steps - 1)
    {
      assert n >= steps ==> (EndsAfter(parents, last, n - steps) <==> n - steps > 0 && EndsAfter(parents, id, n - steps - 1));
    }
  }

  lemma {:induction false} CollectBegins(parents: Parents, start: string)
    requires start in parents
    ensures Collecting(parents, start, {start}, start, parents[start], 0)
  {
    assert Climbing(parents, {}, start, Some(start));
    ClimbNext(parents, {}, start, start);
    assert {} + {start} == {start};
  }

  method ClimbBounded(parents: Parents, start: string) returns (ok: bool)
    requires start in parents
    ensures ok ==> Shallow(parents, start)
    ensures !ok ==> !ParentsExist(parents) || !Acyclic(Hierarchy(parents)) || !Shallow(parents, start)
  {
    var seen := {start};
    var parent := parents[start];
    ghost var last, steps: nat := start, 0;
    CollectBegins(parents, start);
    while parent.Some?
      invariant Collecting(parents, start, seen, last, parent, steps) && steps <= MAX_ANCESTORS
      decreases MAX_ANCESTORS - steps, parent.Some?
    {
      var id := parent.value;
      if id !in parents {
        return false;
      }
      if id in seen {
        ClimbedTwice(parents, seen, last, id);
        return false;
      }
      if |seen| > MAX_ANCESTORS {
        TooDeep(parents, start, seen, last, id, steps);
        return false;
      }
      CollectNext(parents, start, seen, last, id, steps);
      seen := seen + {id};
      last, steps := id, steps + 1;
      parent := parents[id];
    }
    assert EndsAfter(parents, last, 0) && EndsAfter(parents, start, steps);
    ok := true;
  }

  lemma {:induction false} TooDeep(parents: Parents, start: string, seen: set<string>, last: string, id: string,
                                   steps: nat)
    requires Collecting(parents, start, seen, last, Some(id), steps) && steps >= MAX_ANCESTORS
    ensures !Shallow(parents, start)
  {
    forall n: nat | n <= MAX_ANCESTORS
      ensures !EndsAfter(parents, start, n)
    {
      assert !EndsAfter(parents, last, 0);
    }
  }

  /** Identities of a dataset: distinct, and every chain of parents inside the dataset,
      free of cycles and at most 32 long. */
  method ValidateIdentities(links: seq<Link>) returns (ok: bool)
    ensures ok <==> Distinct(Ids(links)) && Tree(ParentMap(links, |links|)) &&
                    forall id :: id in Ids(links) ==> Shallow(ParentMap(links, |links|), id)
  {
    CountDetectsDuplicates(Ids(links));
    if |Elements(Ids(links))| != |links| {
      return false;
    }
    var parents := BuildParents(links);
    for i := 0 to |links|
      invariant forall j :: 0 <= j < i ==> Shallow(parents, Ids(links)[j])
    {
      assert Ids(links)[i] in Elements(Ids(links));
      ok := ClimbBounded(parents, links[i].id);
      if !ok {
        assert Ids(links)[i] in Ids(links);
        return;
      }
    }
    ShallowIsTree(parents, Ids(links));
    ok := true;
  }

  lemma {:induction false} ShallowIsTree(parents: Parents, ids: seq<string>)
    requires parents.Keys == Elements(ids) && forall j :: 0 <= j < |ids| ==> Shallow(parents, ids[j])
    ensures Tree(parents)
  {
    forall id | id in parents
      ensures Ends(parents, id) && (parents[id].Some? ==> parents[id].value in parents)
    {
      assert id in Elements(ids);
      var n: nat :| EndsAfter(parents, id, n);
      assert EndsAfter(parents, id, n);
      assert n > 0 ==> EndsAfter(parents, parents[id].value, n - 1);
    }
    EndingChainsAreAcyclic(parents);
  }

  /** The bounded walk refuses more than the memoised one only by the length of chains. */
  lemma {:induction false} BoundedWalkDiffersByDepth(parents: Parents, id: string)
    requires Tree(parents) && id in parents
    ensures Ends(parents, id) && Ancestors(parents, id) >= 0
    ensures Shallow(parents, id) <==> Ancestors(parents, id) <= 32
  {
    AcyclicChainsEnd(parents, id);
    if Shallow(parents, id) {
      var n: nat :| n <= MAX_ANCESTORS && EndsAfter(parents, id, n);
      EndsAfterUnique(parents, id, n, Ancestors(parents, id));
    }
  }
}
