/** What an accepted stream says about the cells of a whole table and about the children of
    a whole tree. */
module SegmentContents {
  import opened Wrappers
  import opened Collections
  import opened Segments
  import opened SegmentStream

  // ---------------------------------------------------------------------------
  // Cells
  // ---------------------------------------------------------------------------

  function CellIds(cells: seq<Cell>): seq<string>
  {
    seq(|cells|, i requires 0 <= i < |cells| => cells[i].id)
  }

  /** The table and its cells were found in one physical table, and in one sheet. */
  predicate WellLocated(t: Table)
  {
    && (t.location.InTable? ==> t.location.table == t.id)
    && (forall c :: c in t.cells && c.location.InTable? ==> c.location.table == t.id)
    && (t.location.InSheet? ==> forall c :: c in t.cells && c.location.InSheet? ==> c.location.sheet == t.location.sheet)
  }

  predicate Undeclared(f: SegmentFields)
  {
    f == SegmentFields(None, None, None, None)
  }

  /** The segment fields are given together or not at all, and hold the rows of the cells. */
  predicate WellSegmented(t: Table)
  {
    && (Declared(t.fields) || Undeclared(t.fields))
    && (SegmentOf(t).Some? ==>
          var s := SegmentOf(t).value;
          s.rowStart <= s.rowEnd && forall c :: c in t.cells ==> s.rowStart <= c.at.0 <= s.rowEnd)
  }

  /** Ids and coordinates are not repeated, and nothing lies elsewhere. */
  ghost predicate ValidTable(t: Table)
  {
    && Distinct(CellIds(t.cells)) && Distinct(Coordinates(t.cells))
    && WellLocated(t) && WellSegmented(t)
  }

  method ValidateCells(t: Table) returns (ok: bool)
    ensures ok <==> ValidTable(t)
  {
    var ids, coordinates := CellIds(t.cells), Coordinates(t.cells);
    CountDetectsDuplicates(ids);
    CountDetectsDuplicates(coordinates);
    if |ids| != |Elements(ids)| || |coordinates| != |Elements(coordinates)| {
      return false;
    }
    if t.location.InTable? && t.location.table != t.id {
      return false;
    }
    if exists c :: c in t.cells && c.location.InTable? && c.location.table != t.id {
      return false;
    }
    if t.location.InSheet? && exists c :: c in t.cells && c.location.InSheet? && c.location.sheet != t.location.sheet {
      return false;
    }
    ok := SegmentFits(t);
  }

  method SegmentFits(t: Table) returns (ok: bool)
    ensures ok <==> WellSegmented(t)
  {
    var f := t.fields;
    if (f.index.None? || f.rowStart.None? || f.rowEnd.None? || f.isLast.None?) &&
       (f.index.Some? || f.rowStart.Some? || f.rowEnd.Some? || f.isLast.Some?) {
      return false;
    }
    if f.rowStart.Some? && f.rowEnd.Some? {
      if f.rowEnd.value < f.rowStart.value {
        return false;
      }
      return forall c :: c in t.cells ==> f.rowStart.value <= c.at.0 <= f.rowEnd.value;
    }
    return true;
  }

  ghost predicate ValidTables(batches: seq<Batch>)
  {
    forall i, t :: 0 <= i < |batches| && t in batches[i].tables ==> ValidTable(t)
  }

  ghost predicate CellsInside(p: Piece<Coordinate>)
  {
    p.start <= p.next && Distinct(p.content) && forall c :: c in p.content ==> p.start <= c.0 < p.next
  }

  lemma {:induction false} PieceInside(t: Table)
    requires ValidTable(t) && SegmentOf(t).Some?
    ensures CellsInside(TablePiece(t))
  {
    var s, at := SegmentOf(t).value, Coordinates(t.cells);
    forall c | c in at
      ensures s.rowStart <= c.0 < s.rowEnd + 1
    {
      var i :| 0 <= i < |at| && at[i] == c;
      assert t.cells[i] in t.cells;
    }
  }

  lemma {:induction false} PiecesOfTablesInside(tables: seq<Table>, n: nat)
    requires n <= |tables| && forall t :: t in tables ==> ValidTable(t)
    ensures forall p :: p in TablePieces(tables, n) ==> CellsInside(p)
  {
    if n > 0 {
      PiecesOfTablesInside(tables, n - 1);
      assert tables[n - 1] in tables;
      if SegmentOf(tables[n - 1]).Some? {
        PieceInside(tables[n - 1]);
      }
    }
  }

  lemma {:induction false} AllPiecesInside(batches: seq<Batch>, n: nat)
    requires n <= |batches| && ValidTables(batches)
    ensures forall p :: p in AllTables(batches, n) ==> CellsInside(p)
  {
    if n > 0 {
      AllPiecesInside(batches, n - 1);
      PiecesOfTablesInside(batches[n - 1].tables, |batches[n - 1].tables|);
    }
  }

  lemma {:induction false} OfAreMembers<M>(pieces: seq<Piece<M>>, key: string)
    ensures forall p :: p in Of(pieces, key) ==> p in pieces && p.key == key
    decreases |pieces|
  {
    if |pieces| > 0 {
      OfAreMembers(pieces[..|pieces| - 1], key);
    }
  }

  /** The segments of one table have disjoint rows, so no coordinate occurs twice in the
      whole table, wherever its cells arrived. */
  lemma {:induction false} CoordinatesAreUnique(m: Manifest, batches: seq<Batch>, table: string, i: nat, a: nat,
                                                j: nat, b: nat)
    requires WellFormed(m, batches) && ValidTables(batches)
    requires var ps := Of(AllTables(batches, |batches|), table);
             i < |ps| && a < |ps[i].content| && j < |ps| && b < |ps[j].content| && ps[i].content[a] == ps[j].content[b]
    ensures i == j && a == b
  {
    var all := AllTables(batches, |batches|);
    var ps := Of(all, table);
    AllPiecesInside(batches, |batches|);
    OfAreMembers(all, table);
    assert Complete(ps, false);
    assert forall k :: 0 <= k < |ps| ==> ps[k] in ps && CellsInside(ps[k]);
    assert ps[i].content[a] in ps[i].content && ps[j].content[b] in ps[j].content;
    if i < j {
      LaterStartsBehind(ps, false, i, j);
    } else if j < i {
      LaterStartsBehind(ps, false, j, i);
    }
  }

  // ---------------------------------------------------------------------------
  // Children
  // ---------------------------------------------------------------------------

  function Inserted(s: seq<int>, x: int): seq<int>
  {
    if |s| == 0 || s[|s| - 1] <= x then s + [x] else Inserted(s[..|s| - 1], x) + [s[|s| - 1]]
  }

  ghost predicate Ascending(s: seq<int>)
  {
    forall i, j :: 0 <= i < j < |s| ==> s[i] <= s[j]
  }

  lemma {:induction false} InsertedKeepsElements(s: seq<int>, x: int)
    ensures multiset(Inserted(s, x)) == multiset(s) + multiset{x}
    decreases |s|
  {
    MultisetOfAppend(s, x);
    if |s| > 0 && s[|s| - 1] > x {
      var front, last := s[..|s| - 1], s[|s| - 1];
      InsertedKeepsElements(front, x);
      MultisetOfAppend(Inserted(front, x), last);
      MultisetOfPop(s);
    }
  }

  lemma {:induction false} InsertedIsAscending(s: seq<int>, x: int)
    requires Ascending(s)
    ensures Ascending(Inserted(s, x))
    ensures forall y :: y in Inserted(s, x) ==> y in s || y == x
    decreases |s|
  {
    if |s| > 0 && s[|s| - 1] > x {
      var front, last := s[..|s| - 1], s[|s| - 1];
      InsertedIsAscending(front, x);
      assert forall y :: y in front ==> y <= last;
      var inner := Inserted(front, x);
      forall i | 0 <= i < |inner|
        ensures inner[i] <= last
      {
        assert inner[i] in inner;
      }
    }
  }

  method Sort(s: seq<int>) returns (sorted: seq<int>)
    ensures Ascending(sorted) && multiset(sorted) == multiset(s)
  {
    sorted := [];
    for i := 0 to |s|
      invariant Ascending(sorted) && multiset(sorted) == multiset(s[..i])
    {
      PrefixNext(s, i);
      MultisetOfAppend(s[..i], s[i]);
      InsertedIsAscending(sorted, s[i]);
      InsertedKeepsElements(sorted, s[i]);
      sorted := Inserted(sorted, s[i]);
    }
    assert s[..|s|] == s;
  }

  ghost predicate CountsUp(s: seq<int>, lo: int, hi: int)
    requires lo <= hi
  {
    |s| == hi - lo && forall i :: 0 <= i < |s| ==> s[i] == lo + i
  }

  lemma {:induction false} CountsUpBefore(s: seq<int>, lo: int, hi: int)
    requires lo < hi && CountsUp(s, lo, hi)
    ensures CountsUp(s[..|s| - 1], lo, hi - 1) && s[|s| - 1] == hi - 1
  {
  }

  lemma {:induction false} RangeTop(lo: int, hi: int)
    requires lo < hi
    ensures Range(lo, hi) == Range(lo, hi - 1) + multiset{hi - 1}
  {
  }

  lemma {:induction false} CountingUpIsRange(s: seq<int>, lo: int, hi: int)
    requires lo <= hi && CountsUp(s, lo, hi)
    ensures multiset(s) == Range(lo, hi)
    decreases hi - lo
  {
    if lo == hi {
      assert s == [];
    } else {
      var front := s[..|s| - 1];
      CountsUpBefore(s, lo, hi);
      CountingUpIsRange(front, lo, hi - 1);
      MultisetOfPop(s);
      RangeTop(lo, hi);
    }
  }

  lemma {:induction false} RangeBounds(s: seq<int>, lo: int, hi: int, x: int)
    requires lo <= hi && multiset(s) == Range(lo, hi)
    ensures x in s <==> lo <= x < hi
  {
    RangeCounts(lo, hi, x);
    assert x in s <==> multiset(s)[x] > 0;
  }

  lemma {:induction false} RangeWithoutTop(s: seq<int>, lo: int, hi: int)
    requires lo < hi && |s| > 0 && multiset(s) == Range(lo, hi) && s[|s| - 1] == hi - 1
    ensures multiset(s[..|s| - 1]) == Range(lo, hi - 1)
  {
    MultisetOfPop(s);
    assert multiset(s[..|s| - 1]) == multiset(s) - multiset{hi - 1};
  }

  /** In an ascending sequence with the numbers of a range, the last is the greatest. */
  lemma {:induction false} TopIsLast(s: seq<int>, lo: int, hi: int)
    requires lo < hi && Ascending(s) && multiset(s) == Range(lo, hi)
    ensures |s| > 0 && s[|s| - 1] == hi - 1
  {
    RangeBounds(s, lo, hi, hi - 1);
    var i :| 0 <= i < |s| && s[i] == hi - 1;
    RangeBounds(s, lo, hi, s[|s| - 1]);
    assert s[i] <= s[|s| - 1];
  }

  lemma {:induction false} CountsUpNext(s: seq<int>, lo: int, hi: int)
    requires lo < hi && |s| > 0 && s[|s| - 1] == hi - 1 && CountsUp(s[..|s| - 1], lo, hi - 1)
    ensures CountsUp(s, lo, hi)
  {
    var front := s[..|s| - 1];
    assert forall i :: 0 <= i < |front| ==> s[i] == front[i];
  }

  /** Only one ascending sequence holds each number of a range once. */
  lemma {:induction false} AscendingRangeCountsUp(s: seq<int>, lo: int, hi: int)
    requires lo <= hi && Ascending(s) && multiset(s) == Range(lo, hi)
    ensures CountsUp(s, lo, hi)
    decreases hi - lo
  {
    if lo == hi {
      assert |multiset(s)| == |s|;
    } else {
      TopIsLast(s, lo, hi);
      RangeWithoutTop(s, lo, hi);
      AscendingRangeCountsUp(s[..|s| - 1], lo, hi - 1);
      CountsUpNext(s, lo, hi);
    }
  }

  lemma {:induction false} AscendingFits(sorted: seq<int>, lo: int, hi: int)
    requires lo <= hi && Ascending(sorted)
    ensures CountsUp(sorted, lo, hi) <==> multiset(sorted) == Range(lo, hi)
  {
    if multiset(sorted) == Range(lo, hi) {
      AscendingRangeCountsUp(sorted, lo, hi);
    } else if CountsUp(sorted, lo, hi) {
      CountingUpIsRange(sorted, lo, hi);
    }
  }

  /** The direct children of a tree segment are exactly those it announces. */
  ghost predicate ChildrenAnnounced(nodes: seq<Node>, node: Node)
  {
    node.segment.Some? ==>
      var s := node.segment.value;
      multiset(ChildOrders(nodes, |nodes|, node.id)) == Range(s.childStart, s.childStart + s.childCount)
  }

  function Listed(children: map<string, seq<int>>, parent: string): seq<int>
  {
    if parent in children then children[parent] else []
  }

  ghost predicate ListsChildren(children: map<string, seq<int>>, nodes: seq<Node>, n: nat)
    requires n <= |nodes|
  {
    forall p :: Listed(children, p) == ChildOrders(nodes, n, p)
  }

  method CollectChildren(nodes: seq<Node>) returns (children: map<string, seq<int>>)
    ensures ListsChildren(children, nodes, |nodes|)
  {
    children := map[];
    for i := 0 to |nodes|
      invariant ListsChildren(children, nodes, i)
    {
      if nodes[i].parent.Some? {
        var p := nodes[i].parent.value;
        children := children[p := Listed(children, p) + [nodes[i].order]];
      } else {
        assert forall p :: ChildOrders(nodes, i + 1, p) == ChildOrders(nodes, i, p);
      }
    }
  }

  /** Comparing the sorted orders with the announced numbers, one by one. */
  method ChildRangeFits(direct: seq<int>, start: int, count: nat) returns (ok: bool)
    ensures ok <==> multiset(direct) == Range(start, start + count)
  {
    var orders := Sort(direct);
    AscendingFits(orders, start, start + count);
    ok := |orders| == count && forall k :: 0 <= k < |orders| ==> orders[k] == start + k;
  }

  method ValidateChildRange(nodes: seq<Node>, node: Node, children: map<string, seq<int>>) returns (ok: bool)
    requires ListsChildren(children, nodes, |nodes|)
    ensures ok <==> ChildrenAnnounced(nodes, node)
  {
    if node.segment.None? {
      return true;
    }
    var s := node.segment.value;
    ok := ChildRangeFits(Listed(children, node.id), s.childStart, s.childCount);
  }

  /** The part of `_validate_tree_links` after the cycle check. */
  method ValidateChildRanges(nodes: seq<Node>) returns (ok: bool)
    ensures ok <==> forall i :: 0 <= i < |nodes| ==> ChildrenAnnounced(nodes, nodes[i])
  {
    var children := CollectChildren(nodes);
    ok := true;
    for i := 0 to |nodes|
      invariant ok && forall k :: 0 <= k < i ==> ChildrenAnnounced(nodes, nodes[k])
    {
      var node := nodes[i];
      ok := ValidateChildRange(nodes, node, children);
      if !ok {
        assert !ChildrenAnnounced(nodes, nodes[i]);
        return;
      }
    }
  }

  ghost predicate ValidTrees(batches: seq<Batch>)
  {
    forall i, node :: 0 <= i < |batches| && node in batches[i].nodes ==> ChildrenAnnounced(batches[i].nodes, node)
  }

  ghost predicate ChildrenInside(p: Piece<int>)
  {
    p.start <= p.next && multiset(p.content) == Range(p.start, p.next)
  }

  lemma {:induction false} PiecesOfTreesInside(nodes: seq<Node>, n: nat)
    requires n <= |nodes| && forall node :: node in nodes ==> ChildrenAnnounced(nodes, node)
    ensures forall p :: p in TreePieces(nodes, n) ==> ChildrenInside(p)
  {
    if n > 0 {
      PiecesOfTreesInside(nodes, n - 1);
      assert nodes[n - 1] in nodes;
    }
  }

  lemma {:induction false} AllTreesInside(batches: seq<Batch>, n: nat)
    requires n <= |batches| && ValidTrees(batches)
    ensures forall p :: p in AllTrees(batches, n) ==> ChildrenInside(p)
  {
    if n > 0 {
      AllTreesInside(batches, n - 1);
      PiecesOfTreesInside(batches[n - 1].nodes, |batches[n - 1].nodes|);
    }
  }

  /** Over all batches, the children of a continued tree are numbered 0..N-1, each number
      exactly once, where N is where the terminal segment ends. */
  lemma {:induction false} ChildrenEnumerate(m: Manifest, batches: seq<Batch>, tree: string, k: int)
    requires WellFormed(m, batches) && ValidTrees(batches) && Of(AllTrees(batches, |batches|), tree) != []
    ensures var ps := Of(AllTrees(batches, |batches|), tree);
            ps[|ps| - 1].last && multiset(Contents(ps))[k] == if 0 <= k < ps[|ps| - 1].next then 1 else 0
  {
    var all := AllTrees(batches, |batches|);
    var ps := Of(all, tree);
    AllTreesInside(batches, |batches|);
    OfAreMembers(all, tree);
    assert Complete(ps, true);
    assert forall i :: 0 <= i < |ps| ==> ps[i] in ps && ChildrenInside(ps[i]);
    ContentsEnumerate(ps);
    RangeCounts(0, ps[|ps| - 1].next, k);
  }
}
