/** What an admitted dependency graph tells its reader. */
module CatalogGraphTheorems {
  import opened Wrappers
  import opened Collections
  import opened Graphs
  import opened DependencyGraph
  import opened CatalogGraph

  ghost function AllLinks(tableIds: seq<TableId>, edges: seq<ForeignKey>): map<TableId, set<TableId>>
  {
    Links(Elements(tableIds), Elements(edges))
  }

  ghost predicate MutuallyReachable(adj: map<TableId, set<TableId>>, a: TableId, b: TableId)
  {
    Reaches(adj, a, b) && Reaches(adj, b, a)
  }

  ghost predicate SameComponent(cycles: seq<Cycle>, a: TableId, b: TableId)
  {
    exists i :: 0 <= i < |cycles| && a in cycles[i].tables && b in cycles[i].tables
  }

  /** The table lies on a directed cycle of foreign keys (possibly a self-reference). */
  ghost predicate OnCycle(adj: map<TableId, set<TableId>>, a: TableId)
  {
    exists b :: Step(adj, a, b) && Reaches(adj, b, a)
  }

  /** The published components are the strongly connected components with an edge,
      each listing exactly its internal foreign keys. */
  ghost predicate EvidenceIsExact(tableIds: seq<TableId>, edges: seq<ForeignKey>, cycles: seq<Cycle>)
  {
    && (forall a, b :: a in tableIds && b in tableIds && a != b ==>
         (SameComponent(cycles, a, b) <==> MutuallyReachable(AllLinks(tableIds, edges), a, b)))
    && (forall a :: a in tableIds ==>
         (SameComponent(cycles, a, a) <==> OnCycle(AllLinks(tableIds, edges), a)))
    && forall c :: c in cycles ==>
         Elements(c.foreignKeys) == set e | e in edges && e.parent in c.tables && e.child in c.tables
  }

  // ---------------------------------------------------------------------------
  // Representatives
  // ---------------------------------------------------------------------------

  ghost predicate Lists(cycles: seq<Cycle>, i: int, n: TableId)
  {
    0 <= i < |cycles| && n in cycles[i].tables
  }

  lemma {:induction false} RepresentativeSource(cycles: seq<Cycle>, n: TableId)
    requires forall c :: c in cycles ==> |c.tables| > 0
    ensures (Representative(cycles, n) == n && forall i :: !Lists(cycles, i, n)) ||
            exists i :: Lists(cycles, i, n) && Representative(cycles, n) == cycles[i].tables[0]
    decreases |cycles|
  {
    if |cycles| > 0 {
      var k := |cycles| - 1;
      var front := cycles[..k];
      if n in cycles[k].tables {
        assert Lists(cycles, k, n);
      } else {
        RepresentativeSource(front, n);
        if i :| Lists(front, i, n) && Representative(front, n) == front[i].tables[0] {
          assert Lists(cycles, i, n);
        } else {
          forall i: int
            ensures !Lists(cycles, i, n)
          {
            assert !Lists(front, i, n);
          }
        }
      }
    }
  }

  /** Two different tables have one representative exactly when they share a component. */
  lemma {:induction false} SharedRepresentative(tableIds: seq<TableId>, edges: seq<ForeignKey>, cycles: seq<Cycle>,
                                                a: TableId, b: TableId)
    requires CyclesFit(tableIds, edges, cycles)
    ensures SameComponent(cycles, a, b) ==> Representative(cycles, a) == Representative(cycles, b)
    ensures Representative(cycles, a) == Representative(cycles, b) && a != b ==> SameComponent(cycles, a, b)
  {
    MembersKnown(tableIds, edges, cycles);
    RepresentativeSource(cycles, a);
    RepresentativeSource(cycles, b);
    if SameComponent(cycles, a, b) {
      var i :| 0 <= i < |cycles| && a in cycles[i].tables && b in cycles[i].tables;
      assert Lists(cycles, i, a) && Lists(cycles, i, b);
      ComponentsDisjoint(tableIds, edges, cycles, i, a);
      ComponentsDisjoint(tableIds, edges, cycles, i, b);
    }
    if Representative(cycles, a) == Representative(cycles, b) && a != b {
      var i, j :| Lists(cycles, i, a) && Representative(cycles, a) == cycles[i].tables[0] &&
                  Lists(cycles, j, b) && Representative(cycles, b) == cycles[j].tables[0];
      assert Lists(cycles, i, cycles[i].tables[0]) && Lists(cycles, j, cycles[i].tables[0]);
      ComponentsDisjoint(tableIds, edges, cycles, i, cycles[i].tables[0]);
    }
  }

  lemma {:induction false} ComponentsDisjoint(tableIds: seq<TableId>, edges: seq<ForeignKey>, cycles: seq<Cycle>,
                                              i: int, n: TableId)
    requires CyclesFit(tableIds, edges, cycles) && Lists(cycles, i, n)
    ensures forall j :: Lists(cycles, j, n) ==> j == i
  {
    forall j: int | Lists(cycles, j, n)
      ensures j == i
    {
      var lo, hi := if i < j then i else j, if i < j then j else i;
      assert n in Elements(cycles[lo].tables) && n in Elements(cycles[hi].tables);
    }
  }

  lemma {:induction false} EvidenceSource(cycles: seq<Cycle>, e: ForeignKey)
    ensures e in Evidence(cycles) <==> exists i :: 0 <= i < |cycles| && e in cycles[i].foreignKeys
    decreases |cycles|
  {
    if |cycles| > 0 {
      var k := |cycles| - 1;
      EvidenceSource(cycles[..k], e);
      if e in Evidence(cycles[..k]) {
        var i :| 0 <= i < k && e in cycles[..k][i].foreignKeys;
        assert e in cycles[i].foreignKeys;
      }
      if i :| 0 <= i < |cycles| && e in cycles[i].foreignKeys {
        if i < k {
          assert e in cycles[..k][i].foreignKeys;
        }
      }
    }
  }

  // ---------------------------------------------------------------------------
  // Reachability in the graph and in the condensed graph
  // ---------------------------------------------------------------------------

  ghost function Groups(tableIds: seq<TableId>, cycles: seq<Cycle>): map<TableId, TableId>
  {
    map n | n in tableIds :: Representative(cycles, n)
  }

  ghost function Shrunk(tableIds: seq<TableId>, edges: seq<ForeignKey>, cycles: seq<Cycle>): map<TableId, set<TableId>>
    requires EndsKnown(tableIds, edges)
  {
    Condensed(Groups(tableIds, cycles), Elements(edges))
  }

  lemma {:induction false} ReachesInCondensed(tableIds: seq<TableId>, edges: seq<ForeignKey>, cycles: seq<Cycle>,
                                              a: TableId, b: TableId)
    requires EndsKnown(tableIds, edges)
    requires Reaches(AllLinks(tableIds, edges), a, b)
    ensures Reaches(Shrunk(tableIds, edges, cycles), Representative(cycles, a), Representative(cycles, b))
  {
    var adj, small := AllLinks(tableIds, edges), Shrunk(tableIds, edges, cycles);
    var f := (n: TableId) => Representative(cycles, n);
    forall x, y | Step(adj, x, y)
      ensures f(x) == f(y) || Step(small, f(x), f(y))
    {
      var e :| e in Elements(edges) && e.parent == x && e.child == y;
      assert Groups(tableIds, cycles)[x] in Groups(tableIds, cycles).Values;
    }
    ReachesImage(adj, small, f, a, b);
  }

  lemma {:induction false} InsideComponentReaches(tableIds: seq<TableId>, edges: seq<ForeignKey>, cycles: seq<Cycle>,
                                                  a: TableId, b: TableId)
    requires EndsKnown(tableIds, edges) && CyclesFit(tableIds, edges, cycles)
    requires SameComponent(cycles, a, b)
    ensures Reaches(AllLinks(tableIds, edges), a, b)
  {
    var i :| 0 <= i < |cycles| && a in cycles[i].tables && b in cycles[i].tables;
    var members, keys := Elements(cycles[i].tables), Elements(cycles[i].foreignKeys);
    assert IsComponent(cycles[i]);
    assert a in members && b in members;
    LinksMonotone(members, keys, Elements(tableIds), Elements(edges));
    ReachesMonotone(Links(members, keys), AllLinks(tableIds, edges), a, b);
  }

  lemma {:induction false} LinksMonotone(nodes: set<TableId>, edges: set<ForeignKey>, allNodes: set<TableId>,
                                         allEdges: set<ForeignKey>)
    requires nodes <= allNodes && edges <= allEdges
    ensures forall x, y :: Step(Links(nodes, edges), x, y) ==> Step(Links(allNodes, allEdges), x, y)
  {
  }

  /** An edge between representatives comes from an edge of the graph, and members of
      one component reach each other, so a path of representatives lifts to a path. */
  lemma {:induction false} PathLifts(tableIds: seq<TableId>, edges: seq<ForeignKey>, cycles: seq<Cycle>,
                                     p: seq<TableId>, a: TableId, b: TableId)
    requires EndsKnown(tableIds, edges) && CyclesFit(tableIds, edges, cycles)
    requires IsPath(Shrunk(tableIds, edges, cycles), p)
    requires p[0] == Representative(cycles, a) && p[|p| - 1] == Representative(cycles, b)
    ensures Reaches(AllLinks(tableIds, edges), a, b)
    decreases |p|
  {
    var adj, small := AllLinks(tableIds, edges), Shrunk(tableIds, edges, cycles);
    if |p| == 1 {
      SameRepresentativeReaches(tableIds, edges, cycles, a, b);
    } else {
      assert Step(small, p[0], p[1]);
      var e :| e in Elements(edges) && Representative(cycles, e.parent) == p[0] && Representative(cycles, e.child) == p[1];
      assert Step(adj, e.parent, e.child);
      SameRepresentativeReaches(tableIds, edges, cycles, a, e.parent);
      ReachesByStep(adj, e.parent, e.child);
      PathTail(small, p);
      PathLifts(tableIds, edges, cycles, p[1..], e.child, b);
      ReachesTransitive(adj, a, e.parent, e.child);
      ReachesTransitive(adj, a, e.child, b);
    }
  }

  lemma {:induction false} SameRepresentativeReaches(tableIds: seq<TableId>, edges: seq<ForeignKey>,
                                                     cycles: seq<Cycle>, a: TableId, b: TableId)
    requires EndsKnown(tableIds, edges) && CyclesFit(tableIds, edges, cycles)
    requires Representative(cycles, a) == Representative(cycles, b)
    ensures Reaches(AllLinks(tableIds, edges), a, b)
  {
    if a == b {
      ReachesSelf(AllLinks(tableIds, edges), a);
    } else {
      SharedRepresentative(tableIds, edges, cycles, a, b);
      InsideComponentReaches(tableIds, edges, cycles, a, b);
    }
  }

  // ---------------------------------------------------------------------------
  // Main results
  // ---------------------------------------------------------------------------

  /** Kahn's test on the condensed graph passes exactly for complete evidence. */
  lemma {:induction false} CoverageIsExactEvidence(tableIds: seq<TableId>, edges: seq<ForeignKey>, cycles: seq<Cycle>)
    requires EndsKnown(tableIds, edges) && CyclesFit(tableIds, edges, cycles)
    ensures CoversAllCycles(tableIds, edges, cycles) <==> EvidenceIsExact(tableIds, edges, cycles)
  {
    if CoversAllCycles(tableIds, edges, cycles) {
      CoverageMakesExact(tableIds, edges, cycles);
    }
    if EvidenceIsExact(tableIds, edges, cycles) {
      ExactIsCovered(tableIds, edges, cycles);
    }
  }

  lemma {:induction false} CoverageMakesExact(tableIds: seq<TableId>, edges: seq<ForeignKey>, cycles: seq<Cycle>)
    requires EndsKnown(tableIds, edges) && CyclesFit(tableIds, edges, cycles)
    requires CoversAllCycles(tableIds, edges, cycles)
    ensures EvidenceIsExact(tableIds, edges, cycles)
  {
    var adj := AllLinks(tableIds, edges);
    forall a, b | a in tableIds && b in tableIds && a != b
      ensures SameComponent(cycles, a, b) <==> MutuallyReachable(adj, a, b)
    {
      MutualReachMeansComponent(tableIds, edges, cycles, a, b);
    }
    forall c | c in cycles
      ensures Elements(c.foreignKeys) == set e | e in edges && e.parent in c.tables && e.child in c.tables
    {
      InternalKeysListed(tableIds, edges, cycles, c);
    }
    forall a | a in tableIds
      ensures SameComponent(cycles, a, a) <==> OnCycle(adj, a)
    {
      ComponentMeansCycle(tableIds, edges, cycles, a);
    }
  }

  lemma {:induction false} MutualReachMeansComponent(tableIds: seq<TableId>, edges: seq<ForeignKey>,
                                                     cycles: seq<Cycle>, a: TableId, b: TableId)
    requires EndsKnown(tableIds, edges) && CyclesFit(tableIds, edges, cycles)
    requires CoversAllCycles(tableIds, edges, cycles) && a != b
    ensures SameComponent(cycles, a, b) <==> MutuallyReachable(AllLinks(tableIds, edges), a, b)
  {
    var adj, small := AllLinks(tableIds, edges), Shrunk(tableIds, edges, cycles);
    if SameComponent(cycles, a, b) {
      assert SameComponent(cycles, b, a);
      InsideComponentReaches(tableIds, edges, cycles, a, b);
      InsideComponentReaches(tableIds, edges, cycles, b, a);
    }
    if MutuallyReachable(adj, a, b) {
      ReachesInCondensed(tableIds, edges, cycles, a, b);
      ReachesInCondensed(tableIds, edges, cycles, b, a);
      AcyclicMutualIsEqual(small, Representative(cycles, a), Representative(cycles, b));
      SharedRepresentative(tableIds, edges, cycles, a, b);
    }
  }

  lemma {:induction false} AcyclicMutualIsEqual(adj: map<TableId, set<TableId>>, x: TableId, y: TableId)
    requires Acyclic(adj) && Reaches(adj, x, y) && Reaches(adj, y, x)
    ensures x == y
  {
    if x != y {
      var p :| IsPathBetween(adj, p, x, y);
      assert Step(adj, p[0], p[1]);
      PathTail(adj, p);
      assert IsPathBetween(adj, p[1..], p[1], y);
      ReachesTransitive(adj, p[1], y, x);
      assert false;
    }
  }

  lemma {:induction false} InternalKeysListed(tableIds: seq<TableId>, edges: seq<ForeignKey>, cycles: seq<Cycle>,
                                              c: Cycle)
    requires EndsKnown(tableIds, edges) && CyclesFit(tableIds, edges, cycles) && c in cycles
    requires CoversAllCycles(tableIds, edges, cycles)
    ensures Elements(c.foreignKeys) == set e | e in edges && e.parent in c.tables && e.child in c.tables
  {
    var i :| 0 <= i < |cycles| && cycles[i] == c;
    forall e | e in c.foreignKeys
      ensures e in edges && e.parent in c.tables && e.child in c.tables
    {
      EndsAreMembers(cycles[i], e);
      assert e in Elements(cycles[i].foreignKeys) && e in Elements(edges);
    }
    forall e | e in edges && e.parent in c.tables && e.child in c.tables
      ensures e in c.foreignKeys
    {
      assert SameComponent(cycles, e.parent, e.child);
      SharedRepresentative(tableIds, edges, cycles, e.parent, e.child);
      KeyInItsComponent(tableIds, edges, cycles, i, e);
    }
  }

  lemma {:induction false} KeyInItsComponent(tableIds: seq<TableId>, edges: seq<ForeignKey>, cycles: seq<Cycle>,
                                             i: int, e: ForeignKey)
    requires EndsKnown(tableIds, edges) && CyclesFit(tableIds, edges, cycles)
    requires e in Evidence(cycles) && Lists(cycles, i, e.parent)
    ensures e in cycles[i].foreignKeys
  {
    EvidenceSource(cycles, e);
    var j :| 0 <= j < |cycles| && e in cycles[j].foreignKeys;
    EndsAreMembers(cycles[j], e);
    assert Lists(cycles, j, e.parent);
    ComponentsDisjoint(tableIds, edges, cycles, i, e.parent);
  }

  lemma {:induction false} ComponentMeansCycle(tableIds: seq<TableId>, edges: seq<ForeignKey>, cycles: seq<Cycle>,
                                               a: TableId)
    requires EndsKnown(tableIds, edges) && CyclesFit(tableIds, edges, cycles)
    requires CoversAllCycles(tableIds, edges, cycles)
    ensures SameComponent(cycles, a, a) <==> OnCycle(AllLinks(tableIds, edges), a)
  {
    var adj := AllLinks(tableIds, edges);
    if SameComponent(cycles, a, a) {
      MemberIsOnCycle(tableIds, edges, cycles, a);
    }
    if OnCycle(adj, a) {
      var b :| Step(adj, a, b) && Reaches(adj, b, a);
      if a == b {
        var e :| e in Elements(edges) && e.parent == a && e.child == a;
        EvidenceSource(cycles, e);
        assert Groups(tableIds, cycles)[e.parent] == Groups(tableIds, cycles)[e.child];
        var j :| 0 <= j < |cycles| && e in cycles[j].foreignKeys;
        EndsAreMembers(cycles[j], e);
      } else {
        ReachesByStep(adj, a, b);
        MutualReachMeansComponent(tableIds, edges, cycles, a, b);
      }
    }
  }

  lemma {:induction false} EndsAreMembers(c: Cycle, e: ForeignKey)
    requires IsComponent(c) && e in c.foreignKeys
    ensures e.parent in c.tables && e.child in c.tables
  {
    assert e.parent in Parents(c.foreignKeys) && e.child in Children(c.foreignKeys);
    assert e.parent in Elements(c.tables) && e.child in Elements(c.tables);
  }

  lemma {:induction false} MemberHasKey(c: Cycle, a: TableId) returns (e: ForeignKey)
    requires IsComponent(c) && a in c.tables
    ensures e in c.foreignKeys && e.parent == a
  {
    assert a in Elements(c.tables) && a in Parents(c.foreignKeys);
    e :| e in c.foreignKeys && e.parent == a;
  }

  lemma {:induction false} MemberIsOnCycle(tableIds: seq<TableId>, edges: seq<ForeignKey>, cycles: seq<Cycle>,
                                           a: TableId)
    requires EndsKnown(tableIds, edges) && CyclesFit(tableIds, edges, cycles)
    requires SameComponent(cycles, a, a)
    ensures OnCycle(AllLinks(tableIds, edges), a)
  {
    var i :| 0 <= i < |cycles| && a in cycles[i].tables;
    var e := MemberHasKey(cycles[i], a);
    EndsAreMembers(cycles[i], e);
    assert e in Elements(cycles[i].foreignKeys) && e in Elements(edges);
    assert SameComponent(cycles, e.child, a);
    InsideComponentReaches(tableIds, edges, cycles, e.child, a);
    assert Step(AllLinks(tableIds, edges), a, e.child);
  }

  lemma {:induction false} ExactIsCovered(tableIds: seq<TableId>, edges: seq<ForeignKey>, cycles: seq<Cycle>)
    requires EndsKnown(tableIds, edges) && CyclesFit(tableIds, edges, cycles)
    requires EvidenceIsExact(tableIds, edges, cycles)
    ensures CoversAllCycles(tableIds, edges, cycles)
  {
    var group, adj, small := Groups(tableIds, cycles), AllLinks(tableIds, edges), Shrunk(tableIds, edges, cycles);
    forall e | e in edges && group[e.parent] == group[e.child]
      ensures e in Evidence(cycles)
    {
      assert Step(adj, e.parent, e.child);
      if e.parent == e.child {
        ReachesSelf(adj, e.parent);
        assert OnCycle(adj, e.parent);
      } else {
        SharedRepresentative(tableIds, edges, cycles, e.parent, e.child);
      }
      var i :| 0 <= i < |cycles| && e.parent in cycles[i].tables && e.child in cycles[i].tables;
      assert cycles[i] in cycles;
      assert e in Elements(cycles[i].foreignKeys);
      EvidenceSource(cycles, e);
    }
    forall x, y | Step(small, x, y)
      ensures !Reaches(small, y, x)
    {
      if Reaches(small, y, x) {
        var e :| e in Elements(edges) && group[e.parent] == x && group[e.child] == y && x != y;
        var p :| IsPathBetween(small, p, y, x);
        PathLifts(tableIds, edges, cycles, p, e.child, e.parent);
        ReachesByStep(adj, e.parent, e.child);
        assert MutuallyReachable(adj, e.parent, e.child);
        SharedRepresentative(tableIds, edges, cycles, e.parent, e.child);
        assert false;
      }
    }
  }

  /** An admitted graph publishes exactly its strongly connected components. */
  lemma {:induction false} AcceptedEvidenceIsExact(g: Graph)
    requires Accepted(g)
    ensures EvidenceIsExact(g.tableIds, g.edges, g.cycles)
  {
    if |g.cycles| > 0 {
      CoverageIsExactEvidence(g.tableIds, g.edges, g.cycles);
    } else {
      OrderedIsAcyclic(g.tableIds, g.edges, g.topologicalOrder.value);
      var adj := AllLinks(g.tableIds, g.edges);
      forall a, b | a != b
        ensures !MutuallyReachable(adj, a, b)
      {
        if MutuallyReachable(adj, a, b) {
          AcyclicMutualIsEqual(adj, a, b);
        }
      }
    }
  }

  lemma {:induction false} OrderedIsAcyclic(tableIds: seq<TableId>, edges: seq<ForeignKey>, order: seq<TableId>)
    requires EndsKnown(tableIds, edges) && OrderFits(order, tableIds, edges)
    ensures Acyclic(AllLinks(tableIds, edges))
  {
    var adj := AllLinks(tableIds, edges);
    var rank := (n: TableId) => Position(order, n);
    forall a, b | Step(adj, a, b)
      ensures rank(a) < rank(b)
    {
      var e :| e in Elements(edges) && e.parent == a && e.child == b;
      assert Before(order, e.parent, e.child);
      BeforeRaisesPosition(order, a, b);
    }
    RankedIsAcyclic(adj, rank);
  }

  ghost function Position(order: seq<TableId>, n: TableId): int
  {
    if |order| == 0 || order[0] == n then 0 else 1 + Position(order[1..], n)
  }

  lemma {:induction false} PositionFound(order: seq<TableId>, i: nat)
    requires Distinct(order) && i < |order|
    ensures Position(order, order[i]) == i
  {
    if i > 0 {
      PositionFound(order[1..], i - 1);
    }
  }

  lemma {:induction false} BeforeRaisesPosition(order: seq<TableId>, a: TableId, b: TableId)
    requires Distinct(order) && Before(order, a, b)
    ensures Position(order, a) < Position(order, b)
  {
    var i, j :| 0 <= i < j < |order| && order[i] == a && order[j] == b;
    PositionFound(order, i);
    PositionFound(order, j);
  }

  /** A strategy is demanded exactly when some chain of foreign keys is circular. */
  lemma {:induction false} StrategyRequiredExactlyForCycles(g: Graph)
    requires Accepted(g)
    ensures g.requiresExplicitStrategy <==> !Acyclic(AllLinks(g.tableIds, g.edges))
    ensures g.loadOrder.Some? <==> Acyclic(AllLinks(g.tableIds, g.edges))
  {
    var adj := AllLinks(g.tableIds, g.edges);
    if |g.cycles| > 0 {
      assert IsComponent(g.cycles[0]);
      var a := g.cycles[0].tables[0];
      assert SameComponent(g.cycles, a, a);
      MemberIsOnCycle(g.tableIds, g.edges, g.cycles, a);
    } else {
      OrderedIsAcyclic(g.tableIds, g.edges, g.topologicalOrder.value);
    }
  }

  // ---------------------------------------------------------------------------
  // The graph inside its catalog
  // ---------------------------------------------------------------------------

  datatype CatalogKey = CatalogKey(id: string, referencedTable: TableId, referencedColumns: seq<string>, columns: seq<string>)

  datatype CatalogTable = CatalogTable(id: TableId, writable: bool, keys: seq<CatalogKey>)

  function TableNames(tables: seq<CatalogTable>): seq<TableId>
  {
    seq(|tables|, i requires 0 <= i < |tables| => tables[i].id)
  }

  function WritableNames(tables: seq<CatalogTable>): set<TableId>
  {
    set t | t in tables && t.writable :: t.id
  }

  function EdgeOf(t: CatalogTable, k: CatalogKey): ForeignKey
  {
    ForeignKey(k.referencedTable, t.id, k.id, k.referencedColumns, k.columns)
  }

  function ExpectedEdges(tables: seq<CatalogTable>): set<ForeignKey>
  {
    set t, k | t in tables && k in t.keys :: EdgeOf(t, k)
  }

  /** `snapshotOk` is the verdict of the metadata snapshot made of the catalog's own fields,
      `extended` says that a comment or inspection metadata is present. */
  datatype Catalog = Catalog(
    versioned: bool, schemaVersion: string, commentsSupported: Option<bool>, snapshotOk: bool, extended: bool,
    tables: seq<CatalogTable>, graph: Option<Graph>)

  ghost predicate GraphFits(tables: seq<CatalogTable>, g: Graph)
  {
    && Accepted(g)
    && Elements(g.tableIds) == Elements(TableNames(tables))
    && Elements(g.edges) == ExpectedEdges(tables)
    && (g.loadOrder.Some? ==> Elements(g.loadOrder.value) == WritableNames(tables))
  }

  /** A catalog with a fingerprint version is complete and its graph is that of its tables; one
      without has none of the extensions. */
  ghost predicate CatalogAccepted(c: Catalog)
  {
    && Distinct(TableNames(c.tables))
    && if c.versioned then
         && c.schemaVersion == "1.1.0" && c.commentsSupported.Some? && c.snapshotOk
         && c.graph.Some? && GraphFits(c.tables, c.graph.value)
       else c.graph.None? && c.commentsSupported.None? && !c.extended
  }

  method ValidateCatalogGraph(c: Catalog) returns (ok: bool)
    ensures ok <==> CatalogAccepted(c)
  {
    CountDetectsDuplicates(TableNames(c.tables));
    if |Elements(TableNames(c.tables))| != |c.tables| {
      return false;
    }
    if c.versioned {
      if c.schemaVersion != "1.1.0" || c.commentsSupported.None? || c.graph.None? || !c.snapshotOk {
        return false;
      }
      ok := ValidateGraphOfTables(c.tables, c.graph.value);
      return;
    }
    if c.graph.Some? || c.commentsSupported.Some? {
      return false;
    }
    ok := !c.extended;
  }

  method ValidateGraphOfTables(tables: seq<CatalogTable>, g: Graph) returns (ok: bool)
    ensures ok <==> GraphFits(tables, g)
  {
    ok := ValidateGraph(g);
    if !ok {
      return;
    }
    ok := && Elements(g.tableIds) == Elements(TableNames(tables))
          && Elements(g.edges) == ExpectedEdges(tables)
          && (g.loadOrder.Some? ==> Elements(g.loadOrder.value) == WritableNames(tables));
  }

  /** The load order lists every writable table once, parents before their children. */
  lemma {:induction false} LoadOrderIsParentFirst(c: Catalog, tables: seq<CatalogTable>, g: Graph)
    requires CatalogAccepted(c) && c.tables == tables && c.graph == Some(g) && g.loadOrder.Some?
    ensures Distinct(g.loadOrder.value)
    ensures forall t :: t in tables ==> (t.id in g.loadOrder.value <==> t.writable)
    ensures forall t, k, p | t in tables && t.writable && k in t.keys && p in tables && p.writable && p.id == k.referencedTable ::
              Before(g.loadOrder.value, p.id, t.id)
  {
    var load, order := g.loadOrder.value, g.topologicalOrder.value;
    forall t | t in tables
      ensures t.id in load <==> t.writable
    {
      WritableByName(tables, t);
      assert t.id in Elements(load) <==> t.id in WritableNames(tables);
    }
    forall t, k, p | t in tables && t.writable && k in t.keys && p in tables && p.writable && p.id == k.referencedTable
      ensures Before(load, p.id, t.id)
    {
      assert EdgeOf(t, k) in Elements(g.edges);
      assert Before(order, p.id, t.id);
      var i :| 0 <= i < |load| && load[i] == p.id;
      var j :| 0 <= j < |load| && load[j] == t.id;
      BeforeIsStrict(order, p.id, t.id);
    }
  }

  lemma {:induction false} BeforeIsStrict(order: seq<TableId>, a: TableId, b: TableId)
    requires Distinct(order) && Before(order, a, b)
    ensures a != b && !Before(order, b, a)
  {
    BeforeRaisesPosition(order, a, b);
    if Before(order, b, a) {
      BeforeRaisesPosition(order, b, a);
    }
  }

  lemma {:induction false} WritableByName(tables: seq<CatalogTable>, t: CatalogTable)
    requires Distinct(TableNames(tables)) && t in tables
    ensures t.id in WritableNames(tables) <==> t.writable
  {
    var i :| 0 <= i < |tables| && tables[i] == t;
    if t.id in WritableNames(tables) {
      var u :| u in tables && u.writable && u.id == t.id;
      var j :| 0 <= j < |tables| && tables[j] == u;
      assert TableNames(tables)[i] == TableNames(tables)[j];
    }
  }
}
