/** Admission of a complete dependency graph and of the catalog it belongs to, and
    what admission means: the published cycles are the strongly connected components
    that contain an edge, and an order is published exactly for acyclic graphs. */
module CatalogGraph {
  import opened Wrappers
  import opened Collections
  import opened DependencyGraph

  datatype Graph = Graph(
    tableIds: seq<TableId>,
    edges: seq<ForeignKey>,
    topologicalOrder: Option<seq<TableId>>,
    loadOrder: Option<seq<TableId>>,
    cycles: seq<Cycle>,
    selfReferences: seq<ForeignKey>,
    joinTables: seq<TableId>,
    requiresExplicitStrategy: bool)

  function EdgeKeys(edges: seq<ForeignKey>): seq<(TableId, string)>
  {
    seq(|edges|, i requires 0 <= i < |edges| => (edges[i].child, edges[i].id))
  }

  predicate EndsKnown(tableIds: seq<TableId>, edges: seq<ForeignKey>)
  {
    forall e :: e in edges ==> e.parent in tableIds && e.child in tableIds
  }

  function SelfEdges(edges: seq<ForeignKey>): set<ForeignKey>
  {
    set e | e in edges && e.parent == e.child
  }

  lemma {:induction false} SelfReferencesListed(refs: seq<ForeignKey>, edges: seq<ForeignKey>)
    ensures Elements(refs) == SelfEdges(edges) <==> forall e :: e in refs <==> e in edges && e.parent == e.child
  {
    assert forall e :: e in refs <==> e in Elements(refs);
    assert forall e :: e in SelfEdges(edges) <==> e in edges && e.parent == e.child;
  }

  ghost predicate WellFormed(g: Graph)
  {
    && Distinct(g.tableIds)
    && Distinct(EdgeKeys(g.edges))
    && EndsKnown(g.tableIds, g.edges)
    && forall e :: e in g.selfReferences <==> e in g.edges && e.parent == e.child
  }

  /** Valid components with known members and edges, no two sharing a member. */
  ghost predicate CyclesFit(tableIds: seq<TableId>, edges: seq<ForeignKey>, cycles: seq<Cycle>)
  {
    && (forall i :: 0 <= i < |cycles| ==>
         && IsComponent(cycles[i])
         && Elements(cycles[i].tables) <= Elements(tableIds)
         && Elements(cycles[i].foreignKeys) <= Elements(edges))
    && forall i, j :: 0 <= i < j < |cycles| ==> Elements(cycles[i].tables) !! Elements(cycles[j].tables)
  }

  /** a stands before b in the order. */
  ghost predicate Before(order: seq<TableId>, a: TableId, b: TableId)
  {
    exists i, j :: 0 <= i < j < |order| && order[i] == a && order[j] == b
  }

  ghost predicate OrderFits(order: seq<TableId>, tableIds: seq<TableId>, edges: seq<ForeignKey>)
  {
    && Distinct(order) && Elements(order) == Elements(tableIds)
    && forall e :: e in edges ==> Before(order, e.parent, e.child)
  }

  ghost predicate LoadOrderFits(load: seq<TableId>, order: seq<TableId>)
  {
    && Distinct(load) && Elements(load) <= Elements(order)
    && forall i, j :: 0 <= i < j < |load| ==> Before(order, load[i], load[j])
  }

  ghost predicate Accepted(g: Graph)
  {
    && WellFormed(g)
    && g.requiresExplicitStrategy == (|g.cycles| > 0)
    && (if |g.cycles| > 0 then
          && g.topologicalOrder.None? && g.loadOrder.None?
          && CyclesFit(g.tableIds, g.edges, g.cycles)
          && CoversAllCycles(g.tableIds, g.edges, g.cycles)
        else
          && g.topologicalOrder.Some? && g.loadOrder.Some?
          && OrderFits(g.topologicalOrder.value, g.tableIds, g.edges)
          && LoadOrderFits(g.loadOrder.value, g.topologicalOrder.value))
    && forall t :: t in g.joinTables ==> t in g.tableIds
  }

  // ---------------------------------------------------------------------------
  // The validator
  // ---------------------------------------------------------------------------

  method ValidateCycles(tableIds: seq<TableId>, edges: seq<ForeignKey>, cycles: seq<Cycle>) returns (ok: bool)
    requires EndsKnown(tableIds, edges)
    ensures ok <==> CyclesFit(tableIds, edges, cycles)
  {
    var seen: set<TableId> := {};
    for k := 0 to |cycles|
      invariant CyclesFit(tableIds, edges, cycles[..k])
      invariant forall t :: t in seen <==> exists i :: 0 <= i < k && t in cycles[i].tables
    {
      var component := cycles[k];
      var valid := ValidateComponent(component);
      var members := Elements(component.tables);
      if !valid || !(members <= Elements(tableIds)) || members * seen != {}
         || !(Elements(component.foreignKeys) <= Elements(edges)) {
        if members * seen != {} {
          var t :| t in members * seen;
          var i :| 0 <= i < k && t in cycles[i].tables;
          assert t in Elements(cycles[i].tables) && t in Elements(cycles[k].tables);
        }
        return false;
      }
      FitsOneMore(tableIds, edges, cycles, k, seen);
      seen := seen + members;
    }
    assert cycles[..|cycles|] == cycles;
    return true;
  }

  lemma {:induction false} FitsOneMore(tableIds: seq<TableId>, edges: seq<ForeignKey>, cycles: seq<Cycle>, k: nat,
                                       seen: set<TableId>)
    requires k < |cycles| && CyclesFit(tableIds, edges, cycles[..k]) && IsComponent(cycles[k])
    requires Elements(cycles[k].tables) <= Elements(tableIds)
    requires Elements(cycles[k].foreignKeys) <= Elements(edges)
    requires forall t :: t in seen <==> exists i :: 0 <= i < k && t in cycles[i].tables
    requires Elements(cycles[k].tables) * seen == {}
    ensures CyclesFit(tableIds, edges, cycles[..k + 1])
  {
    var front, more := cycles[..k], cycles[..k + 1];
    assert forall i :: 0 <= i < k ==> more[i] == front[i];
    forall i, j | 0 <= i < j < |more|
      ensures Elements(more[i].tables) !! Elements(more[j].tables)
    {
      if j == k {
        assert more[i] == cycles[i] && Elements(cycles[i].tables) <= seen;
        assert more[j] == cycles[k];
        DisjointBySeparation(Elements(more[i].tables), Elements(more[j].tables), seen);
      } else {
        assert Elements(front[i].tables) !! Elements(front[j].tables);
      }
    }
    forall i | 0 <= i < |more|
      ensures IsComponent(more[i]) && Elements(more[i].tables) <= Elements(tableIds)
              && Elements(more[i].foreignKeys) <= Elements(edges)
    {
      if i < k {
        assert IsComponent(front[i]);
      }
    }
  }

  /** The position of each node, as the enumeration of the order assigns it. */
  method Positions(order: seq<TableId>) returns (position: map<TableId, nat>)
    ensures position.Keys == Elements(order)
    ensures forall n :: n in position ==> position[n] < |order| && order[position[n]] == n
  {
    position := map[];
    for i := 0 to |order|
      invariant position.Keys == Elements(order[..i])
      invariant forall n :: n in position ==> position[n] < i && order[position[n]] == n
    {
      assert order[..i + 1] == order[..i] + [order[i]];
      ElementsOfAppend(order[..i], order[i]);
      position := position[order[i] := i];
    }
    assert order[..|order|] == order;
  }

  ghost predicate Places(position: map<TableId, nat>, order: seq<TableId>)
  {
    && Distinct(order) && position.Keys == Elements(order)
    && forall n :: n in position ==> position[n] < |order| && order[position[n]] == n
  }

  lemma {:induction false} BeforeByPosition(order: seq<TableId>, position: map<TableId, nat>, a: TableId, b: TableId)
    requires Places(position, order)
    requires a in position && b in position
    ensures Before(order, a, b) <==> position[a] < position[b]
  {
    if Before(order, a, b) {
      var i, j :| 0 <= i < j < |order| && order[i] == a && order[j] == b;
      assert position[a] == i && position[b] == j;
    }
  }

  method ValidateOrders(tableIds: seq<TableId>, edges: seq<ForeignKey>, order: seq<TableId>, load: seq<TableId>)
    returns (ok: bool)
    requires EndsKnown(tableIds, edges)
    ensures ok <==> OrderFits(order, tableIds, edges) && LoadOrderFits(load, order)
  {
    var position := Positions(order);
    CountDetectsDuplicates(order);
    if position.Keys != Elements(tableIds) || |position.Keys| != |order| {
      return false;
    }
    EdgesByPosition(tableIds, edges, order, position);
    if exists e :: e in edges && position[e.parent] >= position[e.child] {
      return false;
    }
    CountDetectsDuplicates(load);
    if |Elements(load)| != |load| || !(Elements(load) <= position.Keys) {
      return false;
    }
    SortedMeansOrdered(load, order, position);
    ok := forall i, j :: 0 <= i < j < |load| ==> position[load[i]] <= position[load[j]];
  }

  lemma {:induction false} EdgesByPosition(tableIds: seq<TableId>, edges: seq<ForeignKey>, order: seq<TableId>,
                                           position: map<TableId, nat>)
    requires Places(position, order) && EndsKnown(tableIds, edges) && position.Keys == Elements(tableIds)
    ensures forall e :: e in edges ==> e.parent in position && e.child in position
    ensures (forall e :: e in edges ==> position[e.parent] < position[e.child]) <==>
            (forall e :: e in edges ==> Before(order, e.parent, e.child))
  {
    forall e | e in edges
      ensures e.parent in position && e.child in position
      ensures position[e.parent] < position[e.child] <==> Before(order, e.parent, e.child)
    {
      BeforeByPosition(order, position, e.parent, e.child);
    }
  }

  lemma {:induction false} SortedMeansOrdered(load: seq<TableId>, order: seq<TableId>, position: map<TableId, nat>)
    requires Distinct(load) && Elements(load) <= position.Keys && Places(position, order)
    ensures forall i :: 0 <= i < |load| ==> load[i] in position
    ensures (forall i, j :: 0 <= i < j < |load| ==> position[load[i]] <= position[load[j]]) <==>
            (forall i, j :: 0 <= i < j < |load| ==> Before(order, load[i], load[j]))
  {
    forall i | 0 <= i < |load|
      ensures load[i] in position
    {
      assert load[i] in Elements(load);
    }
    forall i, j | 0 <= i < j < |load|
      ensures position[load[i]] <= position[load[j]] <==> Before(order, load[i], load[j])
    {
      BeforeByPosition(order, position, load[i], load[j]);
      assert load[i] != load[j];
    }
  }

  method ValidateGraph(g: Graph) returns (ok: bool)
    ensures ok <==> Accepted(g)
  {
    CountDetectsDuplicates(g.tableIds);
    CountDetectsDuplicates(EdgeKeys(g.edges));
    SelfReferencesListed(g.selfReferences, g.edges);
    if |Elements(g.tableIds)| != |g.tableIds| || |Elements(EdgeKeys(g.edges))| != |g.edges| {
      return false;
    }
    if !EndsKnown(g.tableIds, g.edges) || Elements(g.selfReferences) != SelfEdges(g.edges) {
      return false;
    }
    if g.requiresExplicitStrategy != (|g.cycles| > 0) {
      return false;
    }
    if |g.cycles| > 0 {
      if g.topologicalOrder.Some? || g.loadOrder.Some? {
        return false;
      }
      ok := ValidateCycles(g.tableIds, g.edges, g.cycles);
      if !ok {
        return;
      }
      MembersKnown(g.tableIds, g.edges, g.cycles);
      ok := ValidateCycleCoverage(g.tableIds, g.edges, g.cycles);
    } else {
      if g.topologicalOrder.None? || g.loadOrder.None? {
        return false;
      }
      ok := ValidateOrders(g.tableIds, g.edges, g.topologicalOrder.value, g.loadOrder.value);
    }
    if !ok {
      return;
    }
    ok := forall t :: t in g.joinTables ==> t in g.tableIds;
  }

  lemma {:induction false} MembersKnown(tableIds: seq<TableId>, edges: seq<ForeignKey>, cycles: seq<Cycle>)
    requires CyclesFit(tableIds, edges, cycles)
    ensures forall c :: c in cycles ==> |c.tables| > 0 && Elements(c.tables) <= Elements(tableIds)
  {
  }
}
