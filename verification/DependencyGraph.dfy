/** The foreign-key dependency graph of a database catalog and the checks that admit
    it: strong connectivity of each published cycle component, completeness of the
    cycle evidence by Kahn's algorithm on the condensed graph, and the load order. */
module DependencyGraph {
  import opened Collections
  import opened Graphs
  import opened Kahn

  type TableId = string

  datatype ForeignKey = ForeignKey(
    parent: TableId, child: TableId, id: string,
    parentColumns: seq<string>, childColumns: seq<string>)

  datatype Cycle = Cycle(tables: seq<TableId>, foreignKeys: seq<ForeignKey>)

  /** Edges by parent: the successor sets restricted to the given nodes. */
  function Links(nodes: set<TableId>, edges: set<ForeignKey>): map<TableId, set<TableId>>
  {
    map n | n in nodes :: set e | e in edges && e.parent == n :: e.child
  }

  function BackLinks(nodes: set<TableId>, edges: set<ForeignKey>): map<TableId, set<TableId>>
  {
    map n | n in nodes :: set e | e in edges && e.child == n :: e.parent
  }

  function Parents(edges: seq<ForeignKey>): set<TableId>
  {
    set e | e in edges :: e.parent
  }

  function Children(edges: seq<ForeignKey>): set<TableId>
  {
    set e | e in edges :: e.child
  }

  // ---------------------------------------------------------------------------
  // One component
  // ---------------------------------------------------------------------------

  /** The evidence of one cycle: distinct members that the component's own foreign
      keys cover exactly and connect strongly. */
  ghost predicate IsComponent(c: Cycle)
  {
    && |c.tables| > 0 && Distinct(c.tables)
    && |c.foreignKeys| > 0 && Distinct(c.foreignKeys)
    && Parents(c.foreignKeys) == Elements(c.tables) == Children(c.foreignKeys)
    && StronglyConnected(Elements(c.tables), Links(Elements(c.tables), Elements(c.foreignKeys)))
  }

  ghost predicate StronglyConnected(members: set<TableId>, adj: map<TableId, set<TableId>>)
  {
    forall a, b :: a in members && b in members ==> Reaches(adj, a, b)
  }

  /** The search between two nodes: what is visited is expanded or still pending. */
  ghost predicate Exploring(adjacency: map<TableId, set<TableId>>, start: TableId, visited: set<TableId>,
                            expanded: set<TableId>,
                            pending: seq<TableId>)
  {
    && start in visited && visited <= adjacency.Keys
    && visited == expanded + Elements(pending)
    && (forall n :: n in visited ==> Reaches(adjacency, start, n))
    && (forall n :: n in expanded ==> adjacency[n] <= visited)
  }

  /** What is newly visited is on the stack, above what was there before. */
  ghost predicate Pushed(visited0: set<TableId>, pending0: seq<TableId>, visited: set<TableId>, pending: seq<TableId>)
  {
    Elements(pending0) <= Elements(pending) <= Elements(pending0) + visited && visited <= visited0 + Elements(pending)
  }

  lemma {:induction false} ExploredNode(adjacency: map<TableId, set<TableId>>, start: TableId, visited: set<TableId>,
                                        expanded: set<TableId>,
                                        pending: seq<TableId>, after: set<TableId>, rest: seq<TableId>)
    requires |pending| > 0 && Exploring(adjacency, start, visited, expanded, pending) && Closed(adjacency)
    requires var node := pending[|pending| - 1];
             node in adjacency && visited <= after && adjacency[node] <= after <= visited + adjacency[node] &&
             Pushed(visited, pending[..|pending| - 1], after, rest)
    ensures Exploring(adjacency, start, after, expanded + {pending[|pending| - 1]}, rest)
  {
    var node := pending[|pending| - 1];
    ElementsOfPop(pending);
    assert node in Elements(pending);
    forall n | n in after
      ensures Reaches(adjacency, start, n)
    {
      if n !in visited {
        ReachesByStep(adjacency, node, n);
        ReachesTransitive(adjacency, start, node, n);
      }
    }
  }

  /** Pushes the successors that have not been visited. */
  method Push(successors: set<TableId>, visited0: set<TableId>, pending0: seq<TableId>, ghost all: set<TableId>)
    returns (visited: set<TableId>, pending: seq<TableId>)
    requires visited0 <= all && successors <= all
    ensures visited0 <= visited && successors <= visited <= visited0 + successors
    ensures Pushed(visited0, pending0, visited, pending)
    ensures |pending| + |all - visited| == |pending0| + |all - visited0|
  {
    visited, pending := visited0, pending0;
    var todo := successors;
    while todo != {}
      invariant todo <= successors <= visited + todo
      invariant visited0 <= visited <= visited0 + successors
      invariant Pushed(visited0, pending0, visited, pending)
      invariant |pending| + |all - visited| == |pending0| + |all - visited0|
    {
      var next :| next in todo;
      todo := todo - {next};
      if next !in visited {
        OneMoreOf(all, visited, next);
        ElementsOfAppend(pending, next);
        visited := visited + {next};
        pending := pending + [next];
      }
    }
  }

  /** Worklist search: exactly the nodes reachable from the start are visited. */
  method Explore(adjacency: map<TableId, set<TableId>>, start: TableId) returns (visited: set<TableId>)
    requires start in adjacency && Closed(adjacency)
    ensures visited <= adjacency.Keys
    ensures forall n :: n in visited <==> Reaches(adjacency, start, n)
  {
    visited := {start};
    var pending := [start];
    ghost var expanded := {};
    ReachesSelf(adjacency, start);
    while |pending| > 0
      invariant Exploring(adjacency, start, visited, expanded, pending)
      decreases |pending| + |adjacency.Keys - visited|
    {
      var node := pending[|pending| - 1];
      assert node in Elements(pending);
      ghost var before, stack := visited, pending;
      visited, pending := Push(adjacency[node], visited, pending[..|pending| - 1], adjacency.Keys);
      ExploredNode(adjacency, start, before, expanded, stack, visited, pending);
      expanded := expanded + {node};
    }
    assert Elements(pending) == {};
    forall n | Reaches(adjacency, start, n)
      ensures n in visited
    {
      ReachesStaysInside(adjacency, visited, start, n);
    }
  }

  lemma {:induction false} NoLinks(nodes: set<TableId>)
    ensures Links(nodes, {}) == map n | n in nodes :: {}
    ensures BackLinks(nodes, {}) == map n | n in nodes :: {}
  {
    var empty: map<TableId, set<TableId>> := map n | n in nodes :: {};
    assert forall n :: n in nodes ==> Links(nodes, {})[n] == empty[n] && BackLinks(nodes, {})[n] == empty[n];
  }

  lemma {:induction false} LinksWithOneMore(nodes: set<TableId>, edges: set<ForeignKey>, e: ForeignKey)
    requires e.parent in nodes && e.child in nodes
    ensures Links(nodes, edges + {e}) ==
            var l := Links(nodes, edges); l[e.parent := l[e.parent] + {e.child}]
    ensures BackLinks(nodes, edges + {e}) ==
            var l := BackLinks(nodes, edges); l[e.child := l[e.child] + {e.parent}]
  {
    var l, b := Links(nodes, edges), BackLinks(nodes, edges);
    forall n | n in nodes
      ensures Links(nodes, edges + {e})[n] == l[e.parent := l[e.parent] + {e.child}][n]
      ensures BackLinks(nodes, edges + {e})[n] == b[e.child := b[e.child] + {e.parent}][n]
    {
    }
  }

  method BuildAdjacency(members: set<TableId>, edges: seq<ForeignKey>)
    returns (forward: map<TableId, set<TableId>>, reverse: map<TableId, set<TableId>>)
    requires Parents(edges) <= members && Children(edges) <= members
    ensures forward == Links(members, Elements(edges))
    ensures reverse == BackLinks(members, Elements(edges))
  {
    forward := map n | n in members :: {};
    reverse := map n | n in members :: {};
    NoLinks(members);
    assert Elements(edges[..0]) == {};
    for i := 0 to |edges|
      invariant forward == Links(members, Elements(edges[..i]))
      invariant reverse == BackLinks(members, Elements(edges[..i]))
    {
      var edge := edges[i];
      assert edge.parent in Parents(edges) && edge.child in Children(edges);
      LinksWithOneMore(members, Elements(edges[..i]), edge);
      assert edges[..i + 1] == edges[..i] + [edge];
      ElementsOfAppend(edges[..i], edge);
      forward := forward[edge.parent := forward[edge.parent] + {edge.child}];
      reverse := reverse[edge.child := reverse[edge.child] + {edge.parent}];
    }
    assert edges[..|edges|] == edges;
  }

  method ValidateComponent(c: Cycle) returns (ok: bool)
    ensures ok <==> IsComponent(c)
  {
    var members := Elements(c.tables);
    CountDetectsDuplicates(c.tables);
    if |c.tables| == 0 || |members| != |c.tables| || |c.foreignKeys| == 0 {
      return false;
    }
    if Parents(c.foreignKeys) != members || Children(c.foreignKeys) != members {
      return false;
    }
    CountDetectsDuplicates(c.foreignKeys);
    if |Elements(c.foreignKeys)| != |c.foreignKeys| {
      return false;
    }
    ok := IsStronglyConnected(c.tables[0], members, c.foreignKeys);
  }

  /** Reachability from the first member in both directions decides strong connectivity. */
  method IsStronglyConnected(start: TableId, members: set<TableId>, edges: seq<ForeignKey>) returns (ok: bool)
    requires start in members
    requires Parents(edges) <= members && Children(edges) <= members
    ensures ok <==> StronglyConnected(members, Links(members, Elements(edges)))
  {
    var forward, reverse := BuildAdjacency(members, edges);
    EndsAreCovered(edges);
    var down := Explore(forward, start);
    var up := Explore(reverse, start);
    ReversalAgrees(members, Elements(edges), start);
    ok := down == members && up == members;
    if ok {
      forall a, b | a in members && b in members
        ensures Reaches(forward, a, b)
      {
        ReachesTransitive(forward, a, start, b);
      }
    }
  }

  lemma {:induction false} EndsAreCovered(edges: seq<ForeignKey>)
    ensures forall e :: e in edges ==> e.parent in Parents(edges) && e.child in Children(edges)
  {
  }

  lemma {:induction false} ReversalAgrees(nodes: set<TableId>, edges: set<ForeignKey>, start: TableId)
    requires forall e :: e in edges ==> e.parent in nodes && e.child in nodes
    ensures forall n :: Reaches(BackLinks(nodes, edges), start, n) <==> Reaches(Links(nodes, edges), n, start)
  {
    var forward, reverse := Links(nodes, edges), BackLinks(nodes, edges);
    forall n
      ensures Reaches(reverse, start, n) <==> Reaches(forward, n, start)
    {
      if Reaches(reverse, start, n) {
        ReachesReversed(reverse, forward, start, n);
      }
      if Reaches(forward, n, start) {
        ReachesReversed(forward, reverse, n, start);
      }
    }
  }

  // ---------------------------------------------------------------------------
  // The condensed graph: every component shrunk to its first member
  // ---------------------------------------------------------------------------

  ghost function Representative(cycles: seq<Cycle>, n: TableId): TableId
  {
    if |cycles| == 0 then n
    else
      var last := cycles[|cycles| - 1];
      if n in last.tables then last.tables[0] else Representative(cycles[..|cycles| - 1], n)
  }

  ghost function Evidence(cycles: seq<Cycle>): set<ForeignKey>
  {
    if |cycles| == 0 then {}
    else Evidence(cycles[..|cycles| - 1]) + Elements(cycles[|cycles| - 1].foreignKeys)
  }

  ghost function Condensed(group: map<TableId, TableId>, edges: set<ForeignKey>): map<TableId, set<TableId>>
    requires forall e :: e in edges ==> e.parent in group && e.child in group
  {
    map r | r in group.Values :: set e | e in edges && group[e.parent] == r && group[e.child] != r :: group[e.child]
  }

  method Join(before: map<TableId, TableId>, tables: seq<TableId>) returns (group: map<TableId, TableId>)
    requires |tables| > 0 && Elements(tables) <= before.Keys
    ensures group.Keys == before.Keys
    ensures forall n :: n in group ==> group[n] == if n in tables then tables[0] else before[n]
  {
    group := before;
    for j := 0 to |tables|
      invariant group.Keys == before.Keys
      invariant forall n :: n in group ==> group[n] == if n in tables[..j] then tables[0] else before[n]
    {
      assert tables[j] in Elements(tables);
      group := group[tables[j] := tables[0]];
    }
    assert tables[..|tables|] == tables;
  }

  lemma {:induction false} RepresentativeStep(cycles: seq<Cycle>, i: nat, n: TableId)
    requires i < |cycles|
    requires |cycles[i].tables| > 0
    ensures Representative(cycles[..i + 1], n) ==
            if n in cycles[i].tables then cycles[i].tables[0] else Representative(cycles[..i], n)
    ensures Evidence(cycles[..i + 1]) == Evidence(cycles[..i]) + Elements(cycles[i].foreignKeys)
  {
    assert cycles[..i + 1][..i] == cycles[..i];
  }

  method GroupNodes(nodes: seq<TableId>, cycles: seq<Cycle>)
    returns (group: map<TableId, TableId>, evidence: set<ForeignKey>)
    requires forall c :: c in cycles ==> |c.tables| > 0 && Elements(c.tables) <= Elements(nodes)
    ensures group.Keys == Elements(nodes)
    ensures forall n :: n in group ==> group[n] == Representative(cycles, n)
    ensures evidence == Evidence(cycles)
  {
    group := map n | n in nodes :: n;
    evidence := {};
    for i := 0 to |cycles|
      invariant group.Keys == Elements(nodes)
      invariant forall n :: n in group ==> group[n] == Representative(cycles[..i], n)
      invariant evidence == Evidence(cycles[..i])
    {
      var component := cycles[i];
      assert component in cycles;
      var joined := Join(group, component.tables);
      forall n | n in joined
        ensures joined[n] == Representative(cycles[..i + 1], n)
      {
        RepresentativeStep(cycles, i, n);
      }
      RepresentativeStep(cycles, i, component.tables[0]);
      group := joined;
      evidence := evidence + Elements(component.foreignKeys);
    }
    assert cycles[..|cycles|] == cycles;
  }

  /** Adding one new edge adds one predecessor to its head. */
  lemma {:induction false} CountWithOneMore(adj: map<TableId, set<TableId>>, parent: TableId, child: TableId,
                                            n: TableId)
    requires parent in adj && child !in adj[parent]
    ensures Unvisited(adj[parent := adj[parent] + {child}], {}, n) ==
            Unvisited(adj, {}, n) + if n == child then 1 else 0
  {
    var larger := adj[parent := adj[parent] + {child}];
    if n == child {
      assert Predecessors(larger, n) - {} == (Predecessors(adj, n) - {}) + {parent};
    } else {
      assert Predecessors(larger, n) - {} == Predecessors(adj, n) - {};
    }
  }

  method AddEdge(adj: map<TableId, set<TableId>>, counts: map<TableId, int>, parent: TableId, child: TableId)
    returns (children: map<TableId, set<TableId>>, indegrees: map<TableId, int>)
    requires Counted(adj, {}, counts) && parent in adj && child in adj && child !in adj[parent]
    ensures children == adj[parent := adj[parent] + {child}] && Counted(children, {}, indegrees)
  {
    children := adj[parent := adj[parent] + {child}];
    indegrees := counts[child := counts[child] + 1];
    forall n | n in children
      ensures indegrees[n] == Unvisited(children, {}, n)
    {
      CountWithOneMore(adj, parent, child, n);
    }
  }

  lemma {:induction false} CondensedWithOneMore(group: map<TableId, TableId>, edges: set<ForeignKey>, e: ForeignKey)
    requires forall x :: x in edges + {e} ==> x.parent in group && x.child in group
    ensures var now := Condensed(group, edges);
            var p, c := group[e.parent], group[e.child];
            p in now && c in now &&
            Condensed(group, edges + {e}) == if p == c then now else now[p := now[p] + {c}]
  {
    var now, later := Condensed(group, edges), Condensed(group, edges + {e});
    var p, c := group[e.parent], group[e.child];
    forall r | r in group.Values
      ensures later[r] == if r == p && p != c then now[r] + {c} else now[r]
    {
    }
  }

  lemma {:induction false} NothingCondensed(group: map<TableId, TableId>)
    ensures Condensed(group, {}) == map r | r in group.Values :: {}
  {
    var empty: map<TableId, set<TableId>> := map r | r in group.Values :: {};
    assert forall r :: r in group.Values ==> Condensed(group, {})[r] == empty[r];
  }

  lemma {:induction false} NothingCounted(representatives: set<TableId>)
    ensures Counted(map r | r in representatives :: {}, {}, map r | r in representatives :: 0)
  {
    var adj: map<TableId, set<TableId>> := map r | r in representatives :: {};
    forall n | n in adj
      ensures Unvisited(adj, {}, n) == 0
    {
      assert Predecessors(adj, n) - {} == {};
    }
  }

  method Condense(edges: seq<ForeignKey>, group: map<TableId, TableId>, evidence: set<ForeignKey>)
    returns (covered: bool, children: map<TableId, set<TableId>>, indegrees: map<TableId, int>)
    requires forall e :: e in edges ==> e.parent in group && e.child in group
    ensures covered <==> forall e :: e in edges && group[e.parent] == group[e.child] ==> e in evidence
    ensures covered ==> children == Condensed(group, Elements(edges)) && Counted(children, {}, indegrees)
  {
    children := map r | r in group.Values :: {};
    indegrees := map r | r in group.Values :: 0;
    NothingCondensed(group);
    NothingCounted(group.Values);
    assert Elements(edges[..0]) == {};
    for i := 0 to |edges|
      invariant children == Condensed(group, Elements(edges[..i])) && Counted(children, {}, indegrees)
      invariant forall e :: e in edges[..i] && group[e.parent] == group[e.child] ==> e in evidence
    {
      var edge := edges[i];
      var parent, child := group[edge.parent], group[edge.child];
      assert edges[..i + 1] == edges[..i] + [edge];
      ElementsOfAppend(edges[..i], edge);
      CondensedWithOneMore(group, Elements(edges[..i]), edge);
      if parent == child {
        if edge !in evidence {
          return false, children, indegrees;
        }
      } else if child !in children[parent] {
        children, indegrees := AddEdge(children, indegrees, parent, child);
      } else {
        assert children[parent] + {child} == children[parent];
      }
    }
    assert edges[..|edges|] == edges;
    covered := true;
  }

  /** The cycle evidence leaves nothing out: every foreign key inside a component is
      listed, and shrinking the components leaves no cycle. */
  ghost predicate CoversAllCycles(nodes: seq<TableId>, edges: seq<ForeignKey>, cycles: seq<Cycle>)
    requires forall e :: e in edges ==> e.parent in nodes && e.child in nodes
  {
    var group := map n | n in nodes :: Representative(cycles, n);
    && (forall e :: e in edges && group[e.parent] == group[e.child] ==> e in Evidence(cycles))
    && Acyclic(Condensed(group, Elements(edges)))
  }

  method ValidateCycleCoverage(nodes: seq<TableId>, edges: seq<ForeignKey>, cycles: seq<Cycle>) returns (ok: bool)
    requires forall e :: e in edges ==> e.parent in nodes && e.child in nodes
    requires forall c :: c in cycles ==> |c.tables| > 0 && Elements(c.tables) <= Elements(nodes)
    ensures ok <==> CoversAllCycles(nodes, edges, cycles)
  {
    var group, evidence := GroupNodes(nodes, cycles);
    assert group == map n | n in nodes :: Representative(cycles, n);
    var covered, children, indegrees := Condense(edges, group, evidence);
    if !covered {
      return false;
    }
    var visited := CountVisited(children, indegrees);
    ok := visited == |children|;
  }
}
