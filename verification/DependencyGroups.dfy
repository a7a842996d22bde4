/** Indivisible groups of target units: what is written under one savepoint and
    quarantined as a whole. */
module DependencyGroups {
  import opened Wrappers
  import opened Collections
  import opened Graphs
  import opened LoadPlans

  /** The source record a target unit was projected from. */
  datatype Origin = Origin(unit: string, record: string)

  /** A source record with its related records, its parent record last. */
  datatype RecordLinks = RecordLinks(record: string, related: seq<string>)

  // ---------------------------------------------------------------------------
  // What belongs together
  // ---------------------------------------------------------------------------

  ghost predicate From(origins: seq<Origin>, unit: string, record: string)
  {
    Origin(unit, record) in origins
  }

  ghost predicate DependsOn(steps: seq<Step>, u: string, v: string)
  {
    exists s :: s in steps && s.unit == u && v in s.dependencies
  }

  ghost predicate SameRecord(origins: seq<Origin>, u: string, v: string)
  {
    exists r :: From(origins, u, r) && From(origins, v, r)
  }

  ghost predicate LinksTo(links: seq<RecordLinks>, r: string, q: string)
  {
    exists l :: l in links && l.record == r && q in l.related
  }

  ghost predicate RecordsLinked(origins: seq<Origin>, links: seq<RecordLinks>, u: string, v: string)
  {
    exists r, q :: From(origins, u, r) && From(origins, v, q) && LinksTo(links, r, q)
  }

  ghost predicate Together(steps: seq<Step>, origins: seq<Origin>, links: seq<RecordLinks>, u: string, v: string)
  {
    DependsOn(steps, u, v) || SameRecord(origins, u, v) || RecordsLinked(origins, links, u, v)
  }

  /** The units of the plan, joined both ways by dependencies, by a common source record
      and by links between source records. */
  ghost function Bonds(steps: seq<Step>, origins: seq<Origin>, links: seq<RecordLinks>): map<string, set<string>>
  {
    var units := Elements(Units(steps));
    map u | u in units :: set v | v in units && (Together(steps, origins, links, u, v) || Together(steps, origins, links, v, u))
  }

  // ---------------------------------------------------------------------------
  // The star-shaped graph that is searched instead
  // ---------------------------------------------------------------------------

  function PeersUpTo(origins: seq<Origin>, n: nat): map<string, seq<string>>
    requires n <= |origins|
  {
    if n == 0 then map[]
    else
      var peers, o := PeersUpTo(origins, n - 1), origins[n - 1];
      peers[o.record := (if o.record in peers then peers[o.record] else []) + [o.unit]]
  }

  function Peers(origins: seq<Origin>): map<string, seq<string>>
  {
    PeersUpTo(origins, |origins|)
  }

  lemma {:induction false} PeersListUnits(origins: seq<Origin>, n: nat, r: string)
    requires n <= |origins|
    ensures r in PeersUpTo(origins, n) <==> exists i :: 0 <= i < n && origins[i].record == r
    ensures r in PeersUpTo(origins, n) ==>
            |PeersUpTo(origins, n)[r]| > 0 && From(origins, PeersUpTo(origins, n)[r][0], r)
  {
    if n > 0 {
      PeersListUnits(origins, n - 1, r);
      assert origins[n - 1] == Origin(origins[n - 1].unit, origins[n - 1].record);
    }
  }

  ghost predicate IsFirstPeer(origins: seq<Origin>, r: string, u: string)
  {
    r in Peers(origins) && |Peers(origins)[r]| > 0 && Peers(origins)[r][0] == u
  }

  /** Every peer points at the first unit of its record. */
  ghost predicate StarArc(origins: seq<Origin>, n: nat, u: string, v: string)
    requires n <= |origins|
  {
    exists i :: 0 <= i < n && origins[i].unit == u && IsFirstPeer(origins, origins[i].record, v)
  }

  /** The first unit of a record points at the first units of the records it names. */
  ghost predicate LinkArc(origins: seq<Origin>, links: seq<RecordLinks>, u: string, v: string)
  {
    exists r, q :: LinksTo(links, r, q) && IsFirstPeer(origins, r, u) && IsFirstPeer(origins, q, v)
  }

  ghost predicate Arc(steps: seq<Step>, origins: seq<Origin>, links: seq<RecordLinks>, u: string, v: string)
  {
    DependsOn(steps, u, v) || StarArc(origins, |origins|, u, v) || LinkArc(origins, links, u, v)
  }

  ghost predicate LinkResolved(origins: seq<Origin>, l: RecordLinks)
  {
    (forall q :: q in l.related ==> q in Peers(origins)) && (l.related != [] ==> l.record in Peers(origins))
  }

  ghost predicate Resolved(steps: seq<Step>, origins: seq<Origin>, links: seq<RecordLinks>)
  {
    && (forall o :: o in origins ==> o.unit in Units(steps))
    && (forall l :: l in links ==> LinkResolved(origins, l))
  }

  type Arcs = map<string, set<string>>

  function WithArc(graph: Arcs, u: string, v: string): Arcs
    requires u in graph
  {
    graph[u := graph[u] + {v}]
  }

  lemma {:induction false} StepsWithArc(graph: Arcs, a: string, b: string)
    requires a in graph
    ensures forall u, v :: Graphs.Step(WithArc(graph, a, b), u, v) <==> Graphs.Step(graph, u, v) || (u == a && v == b)
  {
  }

  method DependencyArcs(steps: seq<Step>) returns (graph: Arcs)
    requires Distinct(Units(steps))
    ensures graph.Keys == Elements(Units(steps))
    ensures forall u, v :: Graphs.Step(graph, u, v) <==> DependsOn(steps, u, v)
  {
    graph := map[];
    for i := 0 to |steps|
      invariant forall u :: u in graph <==> exists j :: 0 <= j < i && steps[j].unit == u
      invariant forall j :: 0 <= j < i ==> steps[j].unit in graph && graph[steps[j].unit] == Elements(steps[j].dependencies)
    {
      forall j | 0 <= j < i
        ensures steps[j].unit != steps[i].unit
      {
        assert Units(steps)[j] != Units(steps)[i];
      }
      graph := graph[steps[i].unit := Elements(steps[i].dependencies)];
    }
    KeysAreUnits(steps, graph);
  }

  lemma {:induction false} KeysAreUnits(steps: seq<Step>, graph: Arcs)
    requires forall u :: u in graph <==> exists j :: 0 <= j < |steps| && steps[j].unit == u
    ensures graph.Keys == Elements(Units(steps))
  {
    forall u
      ensures u in graph <==> u in Elements(Units(steps))
    {
      if u in graph {
        var j :| 0 <= j < |steps| && steps[j].unit == u;
        assert Units(steps)[j] == u;
      }
    }
  }

  method CollectPeers(origins: seq<Origin>) returns (peers: map<string, seq<string>>)
    ensures peers == Peers(origins)
  {
    peers := map[];
    for i := 0 to |origins|
      invariant peers == PeersUpTo(origins, i)
    {
      var o := origins[i];
      peers := peers[o.record := (if o.record in peers then peers[o.record] else []) + [o.unit]];
    }
  }

  /** Visits the pairs of a unit and the first unit of its record in the order in which
      the units were projected. */
  method AddStars(origins: seq<Origin>, peers: map<string, seq<string>>, graph0: Arcs) returns (r: Result<Arcs, string>)
    requires peers == Peers(origins)
    ensures r.Ok? <==> forall o :: o in origins ==> o.unit in graph0
    ensures r.Ok? ==> r.value.Keys == graph0.Keys
    ensures r.Ok? ==> forall u, v :: Graphs.Step(r.value, u, v) <==> Graphs.Step(graph0, u, v) || StarArc(origins, |origins|, u, v)
    ensures r.Err? ==> r.error == "LOAD_DATABASE_FAILED"
  {
    var graph := graph0;
    for i := 0 to |origins|
      invariant graph.Keys == graph0.Keys
      invariant forall j :: 0 <= j < i ==> origins[j].unit in graph0
      invariant forall u, v :: Graphs.Step(graph, u, v) <==> Graphs.Step(graph0, u, v) || StarArc(origins, i, u, v)
    {
      var o := origins[i];
      if o.unit !in graph {
        return Err("LOAD_DATABASE_FAILED");
      }
      PeersListUnits(origins, |origins|, o.record);
      var first := peers[o.record][0];
      StarArcNext(origins, i, first);
      graph := WithArc(graph, o.unit, first);
    }
    r := Ok(graph);
  }

  lemma {:induction false} StarArcNext(origins: seq<Origin>, i: nat, first: string)
    requires i < |origins| && IsFirstPeer(origins, origins[i].record, first)
    ensures forall u, v :: StarArc(origins, i + 1, u, v) <==> StarArc(origins, i, u, v) || (u == origins[i].unit && v == first)
  {
    forall u, v | StarArc(origins, i + 1, u, v)
      ensures StarArc(origins, i, u, v) || (u == origins[i].unit && v == first)
    {
      var k :| 0 <= k < i + 1 && origins[k].unit == u && IsFirstPeer(origins, origins[k].record, v);
      assert k == i ==> v == first;
    }
    forall u, v | StarArc(origins, i, u, v) || (u == origins[i].unit && v == first)
      ensures StarArc(origins, i + 1, u, v)
    {
      if StarArc(origins, i, u, v) {
        var k :| 0 <= k < i && origins[k].unit == u && IsFirstPeer(origins, origins[k].record, v);
        assert k < i + 1;
      } else {
        assert origins[i].unit == u && IsFirstPeer(origins, origins[i].record, v);
      }
    }
  }

  /** The arcs of the first links, and of the first records named by the one after them. */
  ghost predicate LinkArcUpTo(origins: seq<Origin>, links: seq<RecordLinks>, i: nat, j: nat, u: string, v: string)
  {
    exists k, m :: LinkArcAt(origins, links, k, m, u, v) && (k < i || (k == i && m < j))
  }

  ghost predicate LinkArcAt(origins: seq<Origin>, links: seq<RecordLinks>, k: int, m: int, u: string, v: string)
  {
    && 0 <= k < |links| && 0 <= m < |links[k].related|
    && IsFirstPeer(origins, links[k].record, u) && IsFirstPeer(origins, links[k].related[m], v)
  }

  lemma {:induction false} LinkArcsAreAll(origins: seq<Origin>, links: seq<RecordLinks>, u: string, v: string)
    ensures LinkArcUpTo(origins, links, |links|, 0, u, v) <==> LinkArc(origins, links, u, v)
  {
    if LinkArc(origins, links, u, v) {
      var r, q :| LinksTo(links, r, q) && IsFirstPeer(origins, r, u) && IsFirstPeer(origins, q, v);
      var l :| l in links && l.record == r && q in l.related;
      var k :| 0 <= k < |links| && links[k] == l;
      var m :| 0 <= m < |l.related| && l.related[m] == q;
      assert LinkArcAt(origins, links, k, m, u, v);
    }
    if LinkArcUpTo(origins, links, |links|, 0, u, v) {
      var k, m :| LinkArcAt(origins, links, k, m, u, v) && (k < |links| || (k == |links| && m < 0));
      assert LinksTo(links, links[k].record, links[k].related[m]);
    }
  }

  lemma {:induction false} LinkArcNext(origins: seq<Origin>, links: seq<RecordLinks>, i: nat, j: nat, a: string,
                                       b: string)
    requires i < |links| && j < |links[i].related|
    requires IsFirstPeer(origins, links[i].record, a) && IsFirstPeer(origins, links[i].related[j], b)
    ensures forall u, v :: LinkArcUpTo(origins, links, i, j + 1, u, v) <==> LinkArcUpTo(origins, links, i, j, u, v) || (u == a && v == b)
  {
    forall u, v
      ensures LinkArcUpTo(origins, links, i, j + 1, u, v) <==> LinkArcUpTo(origins, links, i, j, u, v) || (u == a && v == b)
    {
      assert LinkArcAt(origins, links, i, j, a, b);
      if LinkArcUpTo(origins, links, i, j + 1, u, v) {
        var k, m :| LinkArcAt(origins, links, k, m, u, v) && (k < i || (k == i && m < j + 1));
        assert LinkArcUpTo(origins, links, i, j, u, v) || (k == i && m == j);
      }
    }
  }

  /** The graph holds the first arcs and the arcs of the links so far. */
  ghost predicate Linked(origins: seq<Origin>, links: seq<RecordLinks>, graph0: Arcs, graph: Arcs, i: nat, j: nat)
  {
    && graph.Keys == graph0.Keys
    && forall u, v :: Graphs.Step(graph, u, v) <==> Graphs.Step(graph0, u, v) || LinkArcUpTo(origins, links, i, j, u, v)
  }

  lemma {:induction false} LinkAdded(origins: seq<Origin>, links: seq<RecordLinks>, graph0: Arcs, graph: Arcs, i: nat,
                                     j: nat, a: string, b: string)
    requires i < |links| && j < |links[i].related| && a in graph && Linked(origins, links, graph0, graph, i, j)
    requires IsFirstPeer(origins, links[i].record, a) && IsFirstPeer(origins, links[i].related[j], b)
    ensures Linked(origins, links, graph0, WithArc(graph, a, b), i, j + 1)
  {
    LinkArcNext(origins, links, i, j, a, b);
    StepsWithArc(graph, a, b);
    forall u, v
      ensures Graphs.Step(WithArc(graph, a, b), u, v) <==> Graphs.Step(graph0, u, v) || LinkArcUpTo(origins, links, i, j + 1, u, v)
    {
      assert Graphs.Step(graph, u, v) <==> Graphs.Step(graph0, u, v) || LinkArcUpTo(origins, links, i, j, u, v);
    }
  }

  lemma {:induction false} LinkedRow(origins: seq<Origin>, links: seq<RecordLinks>, graph0: Arcs, graph: Arcs, i: nat)
    requires i < |links| && Linked(origins, links, graph0, graph, i, |links[i].related|)
    ensures Linked(origins, links, graph0, graph, i + 1, 0)
  {
    LinkArcRow(origins, links, i);
  }

  lemma {:induction false} NothingLinked(origins: seq<Origin>, links: seq<RecordLinks>, graph: Arcs)
    ensures Linked(origins, links, graph, graph, 0, 0)
  {
  }

  lemma {:induction false} AllLinked(origins: seq<Origin>, links: seq<RecordLinks>, graph0: Arcs, graph: Arcs)
    requires Linked(origins, links, graph0, graph, |links|, 0)
    ensures forall u, v :: Graphs.Step(graph, u, v) <==> Graphs.Step(graph0, u, v) || LinkArc(origins, links, u, v)
  {
    forall u, v
      ensures Graphs.Step(graph, u, v) <==> Graphs.Step(graph0, u, v) || LinkArc(origins, links, u, v)
    {
      LinkArcsAreAll(origins, links, u, v);
      assert Graphs.Step(graph, u, v) <==> Graphs.Step(graph0, u, v) || LinkArcUpTo(origins, links, |links|, 0, u, v);
    }
  }

  ghost predicate KnownRecord(origins: seq<Origin>, r: string)
  {
    exists u :: From(origins, u, r)
  }

  /** The first link that leads nowhere, and with which code: its target has no unit, or its own
      record has none. */
  ghost predicate UnresolvedAt(origins: seq<Origin>, links: seq<RecordLinks>, i: int, j: int, code: string)
  {
    && 0 <= i < |links| && 0 <= j < |links[i].related|
    && (forall k :: 0 <= k < i ==> LinkResolved(origins, links[k]))
    && (forall m :: 0 <= m < j ==> KnownRecord(origins, links[i].related[m]))
    && (j > 0 ==> KnownRecord(origins, links[i].record))
    && if !KnownRecord(origins, links[i].related[j]) then code == "LOAD_GROUP_UNRESOLVED"
       else !KnownRecord(origins, links[i].record) && code == "LOAD_DATABASE_FAILED"
  }

  lemma {:induction false} PeersAreKnown(origins: seq<Origin>, r: string)
    ensures r in Peers(origins) <==> KnownRecord(origins, r)
  {
    PeersListUnits(origins, |origins|, r);
    if r in Peers(origins) {
      assert From(origins, Peers(origins)[r][0], r);
    }
  }

  method AddLinks(origins: seq<Origin>, links: seq<RecordLinks>, peers: map<string, seq<string>>, graph0: Arcs)
    returns (r: Result<Arcs, string>)
    requires peers == Peers(origins) && forall o :: o in origins ==> o.unit in graph0
    ensures r.Ok? <==> forall l :: l in links ==> LinkResolved(origins, l)
    ensures r.Ok? ==> r.value.Keys == graph0.Keys
    ensures r.Ok? ==> forall u, v :: Graphs.Step(r.value, u, v) <==> Graphs.Step(graph0, u, v) || LinkArc(origins, links, u, v)
    ensures r.Err? ==> exists i, j :: UnresolvedAt(origins, links, i, j, r.error)
  {
    var graph := graph0;
    NothingLinked(origins, links, graph0);
    for i := 0 to |links|
      invariant Linked(origins, links, graph0, graph, i, 0)
      invariant forall k :: 0 <= k < i ==> LinkResolved(origins, links[k])
    {
      var l := links[i];
      for j := 0 to |l.related|
        invariant Linked(origins, links, graph0, graph, i, j)
        invariant forall m :: 0 <= m < j ==> l.related[m] in peers && KnownRecord(origins, l.related[m])
        invariant j > 0 ==> l.record in peers && KnownRecord(origins, l.record)
      {
        PeersAreKnown(origins, l.related[j]);
        PeersAreKnown(origins, l.record);
        if l.related[j] !in peers {
          assert !LinkResolved(origins, l);
          assert UnresolvedAt(origins, links, i, j, "LOAD_GROUP_UNRESOLVED");
          return Err("LOAD_GROUP_UNRESOLVED");
        }
        if l.record !in peers {
          assert !LinkResolved(origins, l);
          assert UnresolvedAt(origins, links, i, j, "LOAD_DATABASE_FAILED");
          return Err("LOAD_DATABASE_FAILED");
        }
        PeersListUnits(origins, |origins|, l.record);
        PeersListUnits(origins, |origins|, l.related[j]);
        var a, b := peers[l.record][0], peers[l.related[j]][0];
        FirstPeerIsKnown(origins, graph0, l.record, a);
        LinkAdded(origins, links, graph0, graph, i, j, a, b);
        graph := WithArc(graph, a, b);
      }
      LinkedRow(origins, links, graph0, graph, i);
    }
    AllLinked(origins, links, graph0, graph);
    r := Ok(graph);
  }

  lemma {:induction false} FirstPeerIsKnown(origins: seq<Origin>, graph: Arcs, r: string, u: string)
    requires IsFirstPeer(origins, r, u) && forall o :: o in origins ==> o.unit in graph
    ensures u in graph
  {
    PeersListUnits(origins, |origins|, r);
    assert From(origins, u, r);
  }

  lemma {:induction false} LinkArcRow(origins: seq<Origin>, links: seq<RecordLinks>, i: nat)
    requires i < |links|
    ensures forall u, v :: LinkArcUpTo(origins, links, i, |links[i].related|, u, v) <==> LinkArcUpTo(origins, links, i + 1, 0, u, v)
  {
    forall u, v
      ensures LinkArcUpTo(origins, links, i, |links[i].related|, u, v) <==> LinkArcUpTo(origins, links, i + 1, 0, u, v)
    {
      if LinkArcUpTo(origins, links, i, |links[i].related|, u, v) {
        var k, m :| LinkArcAt(origins, links, k, m, u, v) && (k < i || (k == i && m < |links[i].related|));
        assert k < i + 1;
      }
      if LinkArcUpTo(origins, links, i + 1, 0, u, v) {
        var k, m :| LinkArcAt(origins, links, k, m, u, v) && (k < i + 1 || (k == i + 1 && m < 0));
        assert k < i || (k == i && m < |links[i].related|);
      }
    }
  }

  /** Why there is no graph: a unit that is not planned comes first, then the first link that
      leads nowhere. */
  ghost predicate GraphRefused(steps: seq<Step>, origins: seq<Origin>, links: seq<RecordLinks>, code: string)
  {
    if exists o :: o in origins && o.unit !in Units(steps) then code == "LOAD_DATABASE_FAILED"
    else exists i, j :: UnresolvedAt(origins, links, i, j, code)
  }

  /** Dependencies, star arcs and link arcs, or the error of a missing unit or record. */
  method BuildGraph(steps: seq<Step>, origins: seq<Origin>, links: seq<RecordLinks>) returns (r: Result<Arcs, string>)
    requires Distinct(Units(steps))
    ensures r.Ok? <==> Resolved(steps, origins, links)
    ensures r.Ok? ==> r.value.Keys == Elements(Units(steps))
    ensures r.Ok? ==> forall u, v :: Graphs.Step(r.value, u, v) <==> Arc(steps, origins, links, u, v)
    ensures r.Err? ==> GraphRefused(steps, origins, links, r.error)
  {
    var graph := DependencyArcs(steps);
    var peers := CollectPeers(origins);
    assert forall u :: u in graph <==> u in Units(steps);
    r := AddStars(origins, peers, graph);
    if r.Ok? {
      r := AddLinks(origins, links, peers, r.value);
    }
  }

  // ---------------------------------------------------------------------------
  // Work budget and symmetric closure
  // ---------------------------------------------------------------------------

  function ArcCount(steps: seq<Step>, graph: Arcs, n: nat): nat
    requires n <= |steps| && forall s :: s in steps ==> s.unit in graph
  {
    if n == 0 then 0 else ArcCount(steps, graph, n - 1) + |graph[steps[n - 1].unit]|
  }

  /** The arcs of the first steps, and those of the next step that are not left to do. */
  ghost predicate Turned(steps: seq<Step>, graph: Arcs, i: nat, u: string, v: string)
    requires i <= |steps|
  {
    exists k :: 0 <= k < i && steps[k].unit == u && Graphs.Step(graph, u, v)
  }

  lemma {:induction false} OneLessToDo<T>(targets: set<T>, todo: set<T>, done: T)
    requires done in todo && todo <= targets
    ensures targets - (todo - {done}) == (targets - todo) + {done}
  {
  }

  /** Arcs from all of `targets` back to `unit`. */
  method AddBackArcs(graph0: Arcs, targets: set<string>, unit: string) returns (ok: bool, graph: Arcs)
    ensures ok <==> targets <= graph0.Keys
    ensures ok ==> graph.Keys == graph0.Keys
    ensures ok ==> forall u, v :: Graphs.Step(graph, u, v) <==> Graphs.Step(graph0, u, v) || (v == unit && u in targets)
  {
    graph := graph0;
    var todo := targets;
    while todo != {}
      invariant graph.Keys == graph0.Keys && todo <= targets && targets - todo <= graph0.Keys
      invariant forall u, v :: Graphs.Step(graph, u, v) <==> Graphs.Step(graph0, u, v) || (v == unit && u in targets - todo)
    {
      var other :| other in todo;
      if other !in graph {
        return false, graph;
      }
      StepsWithArc(graph, other, unit);
      OneLessToDo(targets, todo, other);
      graph := WithArc(graph, other, unit);
      todo := todo - {other};
    }
    ok := true;
  }

  method Symmetric(steps: seq<Step>, graph0: Arcs) returns (r: Result<Arcs, string>)
    requires graph0.Keys == Elements(Units(steps))
    ensures r.Ok? <==> Closed(graph0)
    ensures r.Ok? ==> r.value.Keys == graph0.Keys
    ensures r.Ok? ==> forall u, v :: Graphs.Step(r.value, u, v) <==> Graphs.Step(graph0, u, v) || Graphs.Step(graph0, v, u)
    ensures r.Err? ==> r.error == "LOAD_GROUP_UNRESOLVED"
  {
    var graph := graph0;
    for i := 0 to |steps|
      invariant graph.Keys == graph0.Keys
      invariant forall k :: 0 <= k < i ==> steps[k].unit in graph0 && graph0[steps[k].unit] <= graph0.Keys
      invariant forall u, v :: Graphs.Step(graph, u, v) <==> Graphs.Step(graph0, u, v) || Turned(steps, graph0, i, v, u)
    {
      var unit := steps[i].unit;
      assert Units(steps)[i] == unit;
      var ok;
      ok, graph := AddBackArcs(graph, graph0[unit], unit);
      if !ok {
        return Err("LOAD_GROUP_UNRESOLVED");
      }
      TurnedNext(steps, graph0, i);
    }
    AllTurned(steps, graph0);
    r := Ok(graph);
  }

  lemma {:induction false} TurnedNext(steps: seq<Step>, graph: Arcs, i: nat)
    requires i < |steps| && steps[i].unit in graph
    ensures forall u, v :: Turned(steps, graph, i + 1, u, v) <==>
              Turned(steps, graph, i, u, v) || (u == steps[i].unit && v in graph[u])
  {
    forall u, v
      ensures Turned(steps, graph, i + 1, u, v) <==> Turned(steps, graph, i, u, v) || (u == steps[i].unit && v in graph[u])
    {
      if u == steps[i].unit && v in graph[u] {
        assert Graphs.Step(graph, u, v);
      }
    }
  }

  lemma {:induction false} AllTurned(steps: seq<Step>, graph: Arcs)
    requires graph.Keys == Elements(Units(steps))
    ensures forall u, v :: Turned(steps, graph, |steps|, u, v) <==> Graphs.Step(graph, u, v)
    ensures (forall k :: 0 <= k < |steps| ==> steps[k].unit in graph && graph[steps[k].unit] <= graph.Keys) ==> Closed(graph)
  {
    forall u | u in graph
      ensures exists k :: 0 <= k < |steps| && steps[k].unit == u
    {
      var k :| 0 <= k < |Units(steps)| && Units(steps)[k] == u;
      assert steps[k].unit == u;
    }
  }

  // ---------------------------------------------------------------------------
  // Components in plan order
  // ---------------------------------------------------------------------------

  /** The members, sorted by their position in the plan. */
  function InPlanOrder(steps: seq<Step>, members: set<string>): seq<string>
  {
    if |steps| == 0 then []
    else
      var front, last := InPlanOrder(steps[..|steps| - 1], members), steps[|steps| - 1].unit;
      if last in members then front + [last] else front
  }

  lemma {:induction false} PlanOrderKeepsMembers(steps: seq<Step>, members: set<string>)
    ensures Elements(InPlanOrder(steps, members)) == members * Elements(Units(steps))
    decreases |steps|
  {
    if |steps| > 0 {
      var front, last := steps[..|steps| - 1], steps[|steps| - 1].unit;
      PlanOrderKeepsMembers(front, members);
      assert Units(steps) == Units(front) + [last];
      ElementsOfAppend(Units(front), last);
      ElementsOfAppend(InPlanOrder(front, members), last);
    }
  }

  /** One search: the component of `start`, none of which was seen before. */
  method Component(graph: Arcs, start: string, unseen0: set<string>) returns (members: set<string>, unseen: set<string>)
    requires Closed(graph) && start in unseen0 && unseen0 <= graph.Keys
    requires forall u, v :: u in unseen0 && Graphs.Step(graph, u, v) ==> v in unseen0
    ensures forall v :: v in members <==> Reaches(graph, start, v)
    ensures members <= unseen0 && unseen == unseen0 - members
  {
    var pending := [start];
    unseen := unseen0;
    members := {};
    ReachesSelf(graph, start);
    while |pending| > 0
      invariant members <= unseen0 && unseen == unseen0 - members
      invariant Elements(pending) <= unseen0
      invariant start in members + Elements(pending)
      invariant forall v :: v in members + Elements(pending) ==> Reaches(graph, start, v)
      invariant forall u :: u in members ==> graph[u] <= members + Elements(pending)
      decreases |unseen|, |pending|
    {
      var unit := pending[|pending| - 1];
      ElementsOfPop(pending);
      assert unit in Elements(pending);
      pending := pending[..|pending| - 1];
      if unit in unseen {
        unseen := unseen - {unit};
        members := members + {unit};
        NeighboursReached(graph, start, unit);
        assert forall v :: v in graph[unit] ==> Graphs.Step(graph, unit, v);
        pending := PushAll(pending, graph[unit] * unseen);
      }
    }
    forall v | Reaches(graph, start, v)
      ensures v in members
    {
      ReachesStaysInside(graph, members, start, v);
    }
  }

  lemma {:induction false} NeighboursReached(graph: Arcs, start: string, unit: string)
    requires Reaches(graph, start, unit) && unit in graph
    ensures forall v :: v in graph[unit] ==> Reaches(graph, start, v)
  {
    forall v | v in graph[unit]
      ensures Reaches(graph, start, v)
    {
      ReachesByStep(graph, unit, v);
      ReachesTransitive(graph, start, unit, v);
    }
  }

  method PushAll(stack0: seq<string>, all: set<string>) returns (stack: seq<string>)
    ensures Elements(stack) == Elements(stack0) + all
  {
    stack := stack0;
    var todo := all;
    while todo != {}
      invariant todo <= all && Elements(stack) == Elements(stack0) + (all - todo)
    {
      var x :| x in todo;
      ElementsOfAppend(stack, x);
      stack := stack + [x];
      todo := todo - {x};
    }
  }

  ghost predicate IsComponentOf(graph: Arcs, group: set<string>)
  {
    group != {} && forall u, v :: u in group ==> (v in group <==> Reaches(graph, u, v))
  }

  ghost predicate SymmetricArcs(graph: Arcs)
  {
    forall u, v :: Graphs.Step(graph, u, v) ==> Graphs.Step(graph, v, u)
  }

  lemma {:induction false} ReachedFromOneIsComponent(graph: Arcs, start: string, group: set<string>)
    requires SymmetricArcs(graph) && forall v :: v in group <==> Reaches(graph, start, v)
    ensures IsComponentOf(graph, group)
  {
    ReachesSelf(graph, start);
    forall u, v | u in group
      ensures v in group <==> Reaches(graph, u, v)
    {
      ReachesReversed(graph, graph, start, u);
      if v in group {
        ReachesTransitive(graph, u, start, v);
      }
      if Reaches(graph, u, v) {
        ReachesTransitive(graph, start, u, v);
      }
    }
  }

  ghost predicate Components(steps: seq<Step>, graph: Arcs, groups: seq<seq<string>>)
  {
    && (forall g :: 0 <= g < |groups| ==> IsComponentOf(graph, Elements(groups[g])))
    && (forall g :: 0 <= g < |groups| ==> groups[g] == InPlanOrder(steps, Elements(groups[g])))
    && (forall g, h :: 0 <= g < h < |groups| ==> Elements(groups[g]) !! Elements(groups[h]))
  }

  ghost predicate Grouped(groups: seq<seq<string>>, u: string)
  {
    exists g :: 0 <= g < |groups| && u in groups[g]
  }

  /** The component of a unit joins the groups, and what is left is closed again. */
  lemma {:induction false} GroupCollected(steps: seq<Step>, graph: Arcs, groups: seq<seq<string>>, start: string,
                                          unseen: set<string>, members: set<string>)
    requires graph.Keys == Elements(Units(steps)) && SymmetricArcs(graph) && Components(steps, graph, groups)
    requires unseen <= graph.Keys && members <= unseen && forall v :: v in members <==> Reaches(graph, start, v)
    requires forall u, v :: u in unseen && Graphs.Step(graph, u, v) ==> v in unseen
    requires forall u :: u in graph.Keys - unseen <==> Grouped(groups, u)
    ensures start in members
    ensures Components(steps, graph, groups + [InPlanOrder(steps, members)])
    ensures forall u :: u in graph.Keys - (unseen - members) <==> Grouped(groups + [InPlanOrder(steps, members)], u)
    ensures forall u, v :: u in unseen - members && Graphs.Step(graph, u, v) ==> v in unseen - members
  {
    ReachesSelf(graph, start);
    ReachedFromOneIsComponent(graph, start, members);
    NothingLeavesTheRest(graph, unseen, members);
    PlanOrderKeepsMembers(steps, members);
    assert members * Elements(Units(steps)) == members;
    OneMoreGroup(steps, graph, groups, members, graph.Keys - unseen);
    assert graph.Keys - (unseen - members) == (graph.Keys - unseen) + members;
  }

  method CollectGroups(steps: seq<Step>, graph: Arcs) returns (groups: seq<seq<string>>)
    requires graph.Keys == Elements(Units(steps)) && Closed(graph) && SymmetricArcs(graph)
    ensures Components(steps, graph, groups)
    ensures forall u :: u in graph <==> Grouped(groups, u)
  {
    groups := [];
    var unseen := graph.Keys;
    for i := 0 to |steps|
      invariant unseen <= graph.Keys
      invariant forall u, v :: u in unseen && Graphs.Step(graph, u, v) ==> v in unseen
      invariant Components(steps, graph, groups)
      invariant forall u :: u in graph.Keys - unseen <==> Grouped(groups, u)
      invariant forall k :: 0 <= k < i ==> steps[k].unit !in unseen
    {
      if steps[i].unit in unseen {
        ghost var unseen0 := unseen;
        var members;
        members, unseen := Component(graph, steps[i].unit, unseen);
        GroupCollected(steps, graph, groups, steps[i].unit, unseen0, members);
        groups := groups + [InPlanOrder(steps, members)];
      }
    }
    forall u | u in graph
      ensures u !in unseen
    {
      var k :| 0 <= k < |steps| && Units(steps)[k] == u;
      assert steps[k].unit == u;
    }
  }

  lemma {:induction false} NothingLeavesTheRest(graph: Arcs, unseen: set<string>, members: set<string>)
    requires SymmetricArcs(graph) && IsComponentOf(graph, members)
    requires forall u, v :: u in unseen && Graphs.Step(graph, u, v) ==> v in unseen
    ensures forall u, v :: u in unseen - members && Graphs.Step(graph, u, v) ==> v in unseen - members
  {
    forall u, v | u in unseen - members && Graphs.Step(graph, u, v)
      ensures v in unseen - members
    {
      if v in members {
        ReachesByStep(graph, v, u);
      }
    }
  }

  lemma {:induction false} OneMoreGroup(steps: seq<Step>, graph: Arcs, groups: seq<seq<string>>, members: set<string>,
                                        seen: set<string>)
    requires Components(steps, graph, groups) && IsComponentOf(graph, members)
    requires Elements(InPlanOrder(steps, members)) == members && members !! seen
    requires forall u :: u in seen <==> Grouped(groups, u)
    ensures Components(steps, graph, groups + [InPlanOrder(steps, members)])
    ensures forall u :: u in seen + members <==> Grouped(groups + [InPlanOrder(steps, members)], u)
  {
    var last := InPlanOrder(steps, members);
    var more := groups + [last];
    forall g | 0 <= g < |groups|
      ensures Elements(groups[g]) !! Elements(last)
    {
      assert forall u :: u in groups[g] ==> Grouped(groups, u);
    }
    forall u
      ensures u in seen + members <==> Grouped(more, u)
    {
      if Grouped(groups, u) {
        var g :| 0 <= g < |groups| && u in groups[g];
        assert u in more[g];
      }
      if u in members {
        assert u in Elements(last) && u in more[|groups|];
      }
    }
  }

  // ---------------------------------------------------------------------------
  // The groups
  // ---------------------------------------------------------------------------

  /** Each unit of the plan is in exactly one group; two units share a group exactly when
      a chain of bonds connects them; inside a group the plan order is kept. */
  ghost predicate IsGrouping(steps: seq<Step>, origins: seq<Origin>, links: seq<RecordLinks>, groups: seq<seq<string>>)
  {
    && Components(steps, Bonds(steps, origins, links), groups)
    && (forall u :: u in Units(steps) <==> Grouped(groups, u))
  }

  ghost predicate BothWays(steps: seq<Step>, origins: seq<Origin>, links: seq<RecordLinks>, graph: Arcs)
  {
    && graph.Keys == Elements(Units(steps)) && Closed(graph)
    && forall u, v :: Graphs.Step(graph, u, v) <==> Arc(steps, origins, links, u, v) || Arc(steps, origins, links, v, u)
  }

  lemma {:induction false} ArcIsBond(steps: seq<Step>, origins: seq<Origin>, links: seq<RecordLinks>, u: string,
                                     v: string)
    requires Arc(steps, origins, links, u, v)
    ensures Together(steps, origins, links, u, v)
  {
    if StarArc(origins, |origins|, u, v) {
      var i :| 0 <= i < |origins| && origins[i].unit == u && IsFirstPeer(origins, origins[i].record, v);
      PeersListUnits(origins, |origins|, origins[i].record);
      assert origins[i] == Origin(u, origins[i].record);
      assert From(origins, u, origins[i].record);
    }
    if LinkArc(origins, links, u, v) {
      var r, q :| LinksTo(links, r, q) && IsFirstPeer(origins, r, u) && IsFirstPeer(origins, q, v);
      PeersListUnits(origins, |origins|, r);
      PeersListUnits(origins, |origins|, q);
      assert From(origins, u, r) && From(origins, v, q);
    }
  }

  /** Every unit of a record is linked with the first one. */
  lemma {:induction false} ReachesFirstPeer(steps: seq<Step>, origins: seq<Origin>, links: seq<RecordLinks>,
                                            graph: Arcs, u: string, r: string) returns (first: string)
    requires BothWays(steps, origins, links, graph) && From(origins, u, r)
    ensures IsFirstPeer(origins, r, first)
    ensures Reaches(graph, u, first) && Reaches(graph, first, u)
  {
    var i :| 0 <= i < |origins| && origins[i] == Origin(u, r);
    PeersListUnits(origins, |origins|, r);
    first := Peers(origins)[r][0];
    assert IsFirstPeer(origins, origins[i].record, first);
    assert StarArc(origins, |origins|, u, first);
    ReachesByStep(graph, u, first);
    ReachesByStep(graph, first, u);
  }

  lemma {:induction false} TogetherReaches(steps: seq<Step>, origins: seq<Origin>, links: seq<RecordLinks>,
                                           graph: Arcs, u: string, v: string)
    requires BothWays(steps, origins, links, graph) && Together(steps, origins, links, u, v)
    ensures Reaches(graph, u, v)
  {
    if DependsOn(steps, u, v) {
      ReachesByStep(graph, u, v);
    } else if SameRecord(origins, u, v) {
      var r :| From(origins, u, r) && From(origins, v, r);
      var a := ReachesFirstPeer(steps, origins, links, graph, u, r);
      var b := ReachesFirstPeer(steps, origins, links, graph, v, r);
      ReachesTransitive(graph, u, a, v);
    } else {
      var r, q :| From(origins, u, r) && From(origins, v, q) && LinksTo(links, r, q);
      var a := ReachesFirstPeer(steps, origins, links, graph, u, r);
      var b := ReachesFirstPeer(steps, origins, links, graph, v, q);
      assert LinkArc(origins, links, a, b);
      ReachesByStep(graph, a, b);
      ReachesTransitive(graph, u, a, b);
      ReachesTransitive(graph, u, b, v);
    }
  }

  /** The star-shaped graph connects exactly what the bonds connect. */
  lemma {:induction false} StarsConnectLikeBonds(steps: seq<Step>, origins: seq<Origin>, links: seq<RecordLinks>,
                                                 graph: Arcs, u: string, v: string)
    requires BothWays(steps, origins, links, graph)
    ensures Reaches(graph, u, v) <==> Reaches(Bonds(steps, origins, links), u, v)
  {
    var bonds := Bonds(steps, origins, links);
    if Reaches(graph, u, v) {
      forall x, y | Graphs.Step(graph, x, y)
        ensures Graphs.Step(bonds, x, y)
      {
        if Arc(steps, origins, links, x, y) {
          ArcIsBond(steps, origins, links, x, y);
        } else {
          ArcIsBond(steps, origins, links, y, x);
        }
      }
      ReachesMonotone(graph, bonds, u, v);
    }
    if Reaches(bonds, u, v) {
      forall x, y | Graphs.Step(bonds, x, y)
        ensures Reaches(graph, x, y)
      {
        if Together(steps, origins, links, x, y) {
          TogetherReaches(steps, origins, links, graph, x, y);
        } else {
          TogetherReaches(steps, origins, links, graph, y, x);
          ReachesReversed(graph, graph, y, x);
        }
      }
      ReachesSimulated(bonds, graph, u, v);
    }
  }

  lemma {:induction false} ComponentsOfBonds(steps: seq<Step>, origins: seq<Origin>, links: seq<RecordLinks>,
                                             graph: Arcs, groups: seq<seq<string>>)
    requires BothWays(steps, origins, links, graph) && Components(steps, graph, groups)
    ensures Components(steps, Bonds(steps, origins, links), groups)
  {
    forall g | 0 <= g < |groups|
      ensures IsComponentOf(Bonds(steps, origins, links), Elements(groups[g]))
    {
      forall u, v | u in Elements(groups[g])
        ensures v in Elements(groups[g]) <==> Reaches(Bonds(steps, origins, links), u, v)
      {
        StarsConnectLikeBonds(steps, origins, links, graph, u, v);
      }
    }
  }

  /** Every dependency names a step of the plan. */
  ghost predicate DependenciesKnown(steps: seq<Step>)
  {
    forall s, d :: s in steps && d in s.dependencies ==> d in Units(steps)
  }

  lemma {:induction false} ClosedWhenDependenciesKnown(steps: seq<Step>, origins: seq<Origin>,
                                                       links: seq<RecordLinks>, graph: Arcs)
    requires Resolved(steps, origins, links) && graph.Keys == Elements(Units(steps))
    requires forall u, v :: Graphs.Step(graph, u, v) <==> Arc(steps, origins, links, u, v)
    ensures Closed(graph) <==> DependenciesKnown(steps)
  {
    forall u, v | Graphs.Step(graph, u, v) && !DependsOn(steps, u, v)
      ensures v in Units(steps)
    {
      FirstPeersAreUnits(steps, origins, links, u, v);
    }
    if Closed(graph) {
      forall s, d | s in steps && d in s.dependencies
        ensures d in Units(steps)
      {
        assert DependsOn(steps, s.unit, d) && Graphs.Step(graph, s.unit, d);
      }
    } else {
      var u :| u in graph && !(graph[u] <= graph.Keys);
      var v :| v in graph[u] && v !in graph.Keys;
      assert Graphs.Step(graph, u, v) && DependsOn(steps, u, v);
    }
  }

  lemma {:induction false} FirstPeersAreUnits(steps: seq<Step>, origins: seq<Origin>, links: seq<RecordLinks>,
                                              u: string, v: string)
    requires forall o :: o in origins ==> o.unit in Units(steps)
    requires StarArc(origins, |origins|, u, v) || LinkArc(origins, links, u, v)
    ensures v in Units(steps)
  {
    var r :| IsFirstPeer(origins, r, v);
    assert IsFirstPeer(origins, r, v);
    PeersListUnits(origins, |origins|, r);
    assert From(origins, v, r);
    var o :| o in origins && o.unit == v;
  }

  /** The arcs that `BuildGraph` collects determine the graph. */
  ghost predicate IsArcGraph(steps: seq<Step>, origins: seq<Origin>, links: seq<RecordLinks>, graph: Arcs)
  {
    graph.Keys == Elements(Units(steps)) && forall u, v :: Graphs.Step(graph, u, v) <==> Arc(steps, origins, links, u, v)
  }

  ghost predicate WithinBudget(steps: seq<Step>, origins: seq<Origin>, links: seq<RecordLinks>, maxWork: nat)
  {
    exists graph :: IsArcGraph(steps, origins, links, graph) && KeysCovered(steps, graph) &&
                    |steps| + ArcCount(steps, graph, |steps|) <= maxWork
  }

  ghost predicate KeysCovered(steps: seq<Step>, graph: Arcs)
  {
    forall s :: s in steps ==> s.unit in graph
  }

  lemma {:induction false} ArcGraphUnique(steps: seq<Step>, origins: seq<Origin>, links: seq<RecordLinks>, a: Arcs,
                                          b: Arcs)
    requires IsArcGraph(steps, origins, links, a) && IsArcGraph(steps, origins, links, b)
    ensures a == b
  {
    forall u | u in a
      ensures a[u] == b[u]
    {
      assert forall v :: v in a[u] <==> Graphs.Step(a, u, v);
      assert forall v :: v in b[u] <==> Graphs.Step(b, u, v);
    }
  }

  /** Why there are no groups: an unresolved name, then the work budget, then a dependency on
      nothing. */
  ghost predicate GroupingRefused(steps: seq<Step>, origins: seq<Origin>, links: seq<RecordLinks>, maxWork: nat, code: string)
  {
    if !Resolved(steps, origins, links) then GraphRefused(steps, origins, links, code)
    else if !WithinBudget(steps, origins, links, maxWork) then code == "SECURITY_LIMIT_EXCEEDED"
    else !DependenciesKnown(steps) && code == "LOAD_GROUP_UNRESOLVED"
  }

  method DependencyGroups(steps: seq<Step>, origins: seq<Origin>, links: seq<RecordLinks>, maxWork: nat)
    returns (r: Result<seq<seq<string>>, string>)
    requires Distinct(Units(steps))
    ensures r.Ok? <==> Resolved(steps, origins, links) && DependenciesKnown(steps) &&
                       WithinBudget(steps, origins, links, maxWork)
    ensures r.Ok? ==> IsGrouping(steps, origins, links, r.value)
    ensures r.Err? ==> GroupingRefused(steps, origins, links, maxWork, r.error)
  {
    var built := BuildGraph(steps, origins, links);
    if built.Err? {
      return Err(built.error);
    }
    var graph := built.value;
    StepsAreKeys(steps, graph);
    BudgetOf(steps, origins, links, graph, maxWork);
    var arcs := CountArcs(steps, graph);
    if |graph| + arcs > maxWork {
      return Err("SECURITY_LIMIT_EXCEEDED");
    }
    ClosedWhenDependenciesKnown(steps, origins, links, graph);
    var both := Symmetric(steps, graph);
    if both.Err? {
      return Err(both.error);
    }
    BothWaysClosed(graph, both.value);
    var groups := CollectGroups(steps, both.value);
    ComponentsOfBonds(steps, origins, links, both.value, groups);
    r := Ok(groups);
  }

  lemma {:induction false} BothWaysClosed(graph: Arcs, both: Arcs)
    requires Closed(graph) && both.Keys == graph.Keys
    requires forall u, v :: Graphs.Step(both, u, v) <==> Graphs.Step(graph, u, v) || Graphs.Step(graph, v, u)
    ensures Closed(both) && SymmetricArcs(both)
  {
    forall u, v | u in both && v in both[u]
      ensures v in both
    {
      assert Graphs.Step(both, u, v);
    }
  }

  lemma {:induction false} StepsAreKeys(steps: seq<Step>, graph: Arcs)
    requires graph.Keys == Elements(Units(steps)) && Distinct(Units(steps))
    ensures KeysCovered(steps, graph) && |graph| == |steps|
  {
    CountDetectsDuplicates(Units(steps));
    forall s | s in steps
      ensures s.unit in graph
    {
      var i :| 0 <= i < |steps| && steps[i] == s;
      assert Units(steps)[i] == s.unit;
    }
  }

  lemma {:induction false} BudgetOf(steps: seq<Step>, origins: seq<Origin>, links: seq<RecordLinks>, graph: Arcs,
                                    maxWork: nat)
    requires IsArcGraph(steps, origins, links, graph) && KeysCovered(steps, graph)
    ensures WithinBudget(steps, origins, links, maxWork) <==> |steps| + ArcCount(steps, graph, |steps|) <= maxWork
  {
    if WithinBudget(steps, origins, links, maxWork) {
      var other :| IsArcGraph(steps, origins, links, other) && KeysCovered(steps, other) &&
                   |steps| + ArcCount(steps, other, |steps|) <= maxWork;
      ArcGraphUnique(steps, origins, links, graph, other);
    }
  }

  method CountArcs(steps: seq<Step>, graph: Arcs) returns (count: nat)
    requires KeysCovered(steps, graph)
    ensures count == ArcCount(steps, graph, |steps|)
  {
    count := 0;
    for i := 0 to |steps|
      invariant count == ArcCount(steps, graph, i)
    {
      count := count + |graph[steps[i].unit]|;
    }
  }

  // ---------------------------------------------------------------------------
  // What a grouping means for the loader
  // ---------------------------------------------------------------------------

  /** A group is closed under dependencies, under common source records and under links
      between source records, in both directions. */
  lemma {:induction false} GroupsAreClosed(steps: seq<Step>, origins: seq<Origin>, links: seq<RecordLinks>,
                                           groups: seq<seq<string>>, g: nat, u: string, v: string)
    requires IsGrouping(steps, origins, links, groups) && g < |groups| && v in Units(steps)
    requires u in groups[g] && (Together(steps, origins, links, u, v) || Together(steps, origins, links, v, u))
    ensures v in groups[g]
  {
    var bonds := Bonds(steps, origins, links);
    assert Grouped(groups, u);
    assert u in Elements(groups[g]) && Graphs.Step(bonds, u, v);
    ReachesByStep(bonds, u, v);
  }

  /** No unit is in two groups. */
  lemma {:induction false} GroupIsUnique(steps: seq<Step>, origins: seq<Origin>, links: seq<RecordLinks>,
                                         groups: seq<seq<string>>, g: nat, h: nat, u: string)
    requires IsGrouping(steps, origins, links, groups) && g < |groups| && h < |groups|
    requires u in groups[g] && u in groups[h]
    ensures g == h
  {
    assert u in Elements(groups[g]) && u in Elements(groups[h]);
  }
}
