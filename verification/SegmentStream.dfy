/** The check of a stream of extracted batches against its manifest: one pass over the
    batches that agrees with looking at all of them together. */
module SegmentStream {
  import opened Wrappers
  import opened Collections
  import opened Segments

  /** Row and column. */
  type Coordinate = (nat, nat)

  /** Where a value was found, as far as it names a physical table or sheet. */
  datatype Location = InTable(table: string) | InSheet(sheet: string) | Elsewhere

  datatype Cell = Cell(id: string, at: Coordinate, location: Location)

  /** The four segment fields are declared one by one. */
  datatype SegmentFields = SegmentFields(
    index: Option<nat>, rowStart: Option<nat>, rowEnd: Option<nat>, isLast: Option<bool>)

  datatype TableSegment = TableSegment(index: nat, rowStart: nat, rowEnd: nat, isLast: bool)

  datatype Table = Table(id: string, location: Location, fields: SegmentFields, cells: seq<Cell>)

  predicate Declared(f: SegmentFields)
  {
    f.index.Some? && f.rowStart.Some? && f.rowEnd.Some? && f.isLast.Some?
  }

  function SegmentOf(t: Table): Option<TableSegment>
  {
    var f := t.fields;
    if Declared(f) then Some(TableSegment(f.index.value, f.rowStart.value, f.rowEnd.value, f.isLast.value)) else None
  }

  function Coordinates(cells: seq<Cell>): seq<Coordinate>
  {
    seq(|cells|, i requires 0 <= i < |cells| => cells[i].at)
  }

  datatype TreeSegment = TreeSegment(treeId: string, index: nat, childStart: nat, childCount: nat, isLast: bool)

  datatype Node = Node(id: string, parent: Option<string>, order: nat, kind: string, segment: Option<TreeSegment>)

  /** A physical object: its kind and local id. */
  type RefKey = (string, string)

  datatype Ref = Ref(extraction: string, batch: nat, key: RefKey)

  datatype Summary = Summary(index: nat, fingerprint: string, origin: string, refCount: nat, recordCount: Option<nat>)

  datatype Manifest = Manifest(schema: string, batches: seq<Summary>, refs: seq<Ref>)

  /** `keys` are the addressable objects in traversal order; `origin` stands for source,
      extraction run and parser together. */
  datatype Batch = Batch(
    schema: string, index: nat, extraction: string, origin: string, fingerprint: string, recordCount: Option<nat>,
    tables: seq<Table>, nodes: seq<Node>, keys: seq<RefKey>, indexed: seq<Ref>, isLast: bool, manifest: Option<Manifest>)

  function SummaryOf(b: Batch): Summary
  {
    Summary(b.index, b.fingerprint, b.origin, |b.keys|, b.recordCount)
  }

  predicate Supported(schema: string)
  {
    schema == "1.0.0" || schema == "1.1.0"
  }

  // ---------------------------------------------------------------------------
  // One batch against the manifest
  // ---------------------------------------------------------------------------

  ghost predicate HoldsRefs(b: Batch, refs: set<Ref>)
  {
    forall r :: r in refs ==> r.extraction == b.extraction && r.batch == b.index && r.key in b.keys
  }

  /** Strikes the objects of the batch off the list of missing ones, stopping early. */
  method ContainsRefs(b: Batch, refs: set<Ref>) returns (ok: bool)
    ensures ok <==> HoldsRefs(b, refs)
  {
    var missing: set<RefKey> := {};
    var todo := refs;
    while todo != {}
      invariant todo <= refs
      invariant missing == set r | r in refs - todo :: r.key
      invariant forall r :: r in refs - todo ==> r.extraction == b.extraction && r.batch == b.index
    {
      var r :| r in todo;
      if r.extraction != b.extraction || r.batch != b.index {
        return false;
      }
      StruckKeys(refs, todo, r);
      missing := missing + {r.key};
      todo := todo - {r};
    }
    assert refs - todo == refs;
    var all := missing;
    if missing == {} {
      assert forall r :: r in refs ==> r.key in all;
      return true;
    }
    for i := 0 to |b.keys|
      invariant missing == all - Elements(b.keys[..i]) && missing != {}
    {
      PrefixNext(b.keys, i);
      ElementsOfAppend(b.keys[..i], b.keys[i]);
      missing := missing - {b.keys[i]};
      if missing == {} {
        AllStruck(b, refs, all, i + 1);
        return true;
      }
    }
    assert b.keys[..|b.keys|] == b.keys;
    var key :| key in missing;
    assert key in all && key !in b.keys;
    return false;
  }

  lemma {:induction false} StruckKeys(refs: set<Ref>, todo: set<Ref>, r: Ref)
    requires todo <= refs && r in todo
    ensures (set x | x in refs - (todo - {r}) :: x.key) == (set x | x in refs - todo :: x.key) + {r.key}
  {
    assert refs - (todo - {r}) == (refs - todo) + {r};
  }

  lemma {:induction false} AllStruck(b: Batch, refs: set<Ref>, all: set<RefKey>, n: nat)
    requires n <= |b.keys| && all == (set r | r in refs :: r.key) && all - Elements(b.keys[..n]) == {}
    ensures forall r :: r in refs ==> r.key in b.keys
  {
    forall r | r in refs
      ensures r.key in b.keys
    {
      assert r.key in all;
      assert r.key !in all - Elements(b.keys[..n]);
    }
  }

  function RefsOf(m: Manifest, index: nat): set<Ref>
  {
    set r | r in m.refs && r.batch == index
  }

  ghost predicate Matches(m: Manifest, b: Batch)
  {
    && m.schema in {"1.0.0", "1.1.0"} && b.schema == m.schema
    && b.index < |m.batches| && Describes(m.batches[b.index], b)
    && (b.isLast <==> b.index == |m.batches| - 1)
    && (b.isLast ==> b.manifest == Some(m))
    && forall r :: r in m.refs && r.batch == b.index ==> r.extraction == b.extraction && r.key in b.keys
  }

  predicate Describes(s: Summary, b: Batch)
  {
    && s.index == b.index && s.fingerprint == b.fingerprint && s.origin == b.origin
    && s.refCount == |b.keys| && s.recordCount == b.recordCount
  }

  method ValidateBatch(m: Manifest, b: Batch) returns (ok: bool)
    ensures ok <==> Matches(m, b)
  {
    if !Supported(m.schema) || b.schema != m.schema || b.index >= |m.batches| {
      return false;
    }
    var expectedTerminal := b.index == |m.batches| - 1;
    if SummaryOf(b) != m.batches[b.index] || b.isLast != expectedTerminal || (expectedTerminal && b.manifest != Some(m)) {
      return false;
    }
    ok := ContainsRefs(b, RefsOf(m, b.index));
  }

  // ---------------------------------------------------------------------------
  // Pieces of the stream
  // ---------------------------------------------------------------------------

  function TablePiece(t: Table): Piece<Coordinate>
    requires SegmentOf(t).Some?
  {
    var s := SegmentOf(t).value;
    Piece(t.id, s.index, s.rowStart, s.rowEnd + 1, s.isLast, "table", Coordinates(t.cells))
  }

  /** Two segments of a table meet exactly when the second begins in the row after the first. */
  lemma {:induction false} RowsFollow(t: Table, u: Table)
    requires SegmentOf(t).Some? && SegmentOf(u).Some?
    ensures TablePiece(u).start == TablePiece(t).next <==> SegmentOf(u).value.rowStart == SegmentOf(t).value.rowEnd + 1
  {
  }

  function TablePieces(tables: seq<Table>, n: nat): seq<Piece<Coordinate>>
    requires n <= |tables|
  {
    if n == 0 then []
    else TablePieces(tables, n - 1) + if SegmentOf(tables[n - 1]).Some? then [TablePiece(tables[n - 1])] else []
  }

  /** The orders of the direct children of a node. */
  function ChildOrders(nodes: seq<Node>, n: nat, parent: string): seq<int>
    requires n <= |nodes|
  {
    if n == 0 then []
    else ChildOrders(nodes, n - 1, parent) + if nodes[n - 1].parent == Some(parent) then [nodes[n - 1].order] else []
  }

  function TreePiece(nodes: seq<Node>, node: Node): Piece<int>
    requires node.segment.Some?
  {
    var s := node.segment.value;
    Piece(s.treeId, s.index, s.childStart, s.childStart + s.childCount, s.isLast, node.kind, ChildOrders(nodes, |nodes|, node.id))
  }

  function TreePieces(nodes: seq<Node>, n: nat): seq<Piece<int>>
    requires n <= |nodes|
  {
    if n == 0 then []
    else TreePieces(nodes, n - 1) + if nodes[n - 1].segment.Some? then [TreePiece(nodes, nodes[n - 1])] else []
  }

  function AllTables(batches: seq<Batch>, n: nat): seq<Piece<Coordinate>>
    requires n <= |batches|
  {
    if n == 0 then [] else AllTables(batches, n - 1) + TablePieces(batches[n - 1].tables, |batches[n - 1].tables|)
  }

  function AllTrees(batches: seq<Batch>, n: nat): seq<Piece<int>>
    requires n <= |batches|
  {
    if n == 0 then [] else AllTrees(batches, n - 1) + TreePieces(batches[n - 1].nodes, |batches[n - 1].nodes|)
  }

  function AllRefs(batches: seq<Batch>, n: nat): seq<Ref>
    requires n <= |batches|
  {
    if n == 0 then [] else AllRefs(batches, n - 1) + batches[n - 1].indexed
  }

  // ---------------------------------------------------------------------------
  // The collected form
  // ---------------------------------------------------------------------------

  ghost predicate InSequence(m: Manifest, batches: seq<Batch>, n: nat)
    requires n <= |batches|
  {
    n <= |m.batches| && forall i :: 0 <= i < n ==> batches[i].index == i && Matches(m, batches[i])
  }

  ghost predicate RefsAgree(m: Manifest, batches: seq<Batch>)
  {
    m.schema == "1.1.0" ==> AllRefs(batches, |batches|) == m.refs
  }

  /** Everything that a reader who holds all batches at once would ask for. */
  ghost predicate WellFormed(m: Manifest, batches: seq<Batch>)
  {
    && |batches| == |m.batches| && InSequence(m, batches, |batches|)
    && AllComplete(AllTables(batches, |batches|), false)
    && AllComplete(AllTrees(batches, |batches|), true)
    && RefsAgree(m, batches)
  }

  // ---------------------------------------------------------------------------
  // The one-pass check
  // ---------------------------------------------------------------------------

  /** One more piece of a table: the cursors follow it, or the stream is broken for good. */
  lemma {:induction false} NextTable(state: map<string, Cursor>, tables: seq<Table>, i: nat, before: seq<Piece<Coordinate>>)
    requires i < |tables| && SegmentOf(tables[i]).Some? && Tracks(state, before + TablePieces(tables, i), false)
    ensures var p := TablePiece(tables[i]);
            if Accepts(state, p, false) then Tracks(state[p.key := CursorAfter(p)], before + TablePieces(tables, i + 1), false)
            else !AllJoined(before + TablePieces(tables, |tables|), false)
  {
    var p, fed := TablePiece(tables[i]), before + TablePieces(tables, i);
    AcceptedStaysJoined(state, fed, p, false);
    assert before + TablePieces(tables, i + 1) == fed + [p];
    if !Accepts(state, p, false) {
      var rest := TablesAfter(tables, i + 1);
      StaysUnjoined(fed + [p], rest, false);
      assert before + TablePieces(tables, |tables|) == fed + [p] + rest;
    }
  }

  method FeedTables(state0: map<string, Cursor>, tables: seq<Table>, ghost before: seq<Piece<Coordinate>>)
    returns (state: map<string, Cursor>, ok: bool)
    requires Tracks(state0, before, false)
    ensures ok <==> AllJoined(before + TablePieces(tables, |tables|), false)
    ensures ok ==> Tracks(state, before + TablePieces(tables, |tables|), false)
  {
    state := state0;
    assert before + [] == before;
    for i := 0 to |tables|
      invariant Tracks(state, before + TablePieces(tables, i), false)
    {
      if SegmentOf(tables[i]).Some? {
        var p := TablePiece(tables[i]);
        NextTable(state, tables, i, before);
        if !Accepts(state, p, false) {
          return state, false;
        }
        state := state[p.key := CursorAfter(p)];
      } else {
        assert TablePieces(tables, i + 1) == TablePieces(tables, i);
      }
    }
    ok := true;
  }

  lemma {:induction false} TablesAfter(tables: seq<Table>, n: nat) returns (rest: seq<Piece<Coordinate>>)
    requires n <= |tables|
    ensures TablePieces(tables, |tables|) == TablePieces(tables, n) + rest
    decreases |tables| - n
  {
    if n == |tables| {
      rest := [];
    } else {
      rest := TablesAfter(tables, n + 1);
      rest := (if SegmentOf(tables[n]).Some? then [TablePiece(tables[n])] else []) + rest;
    }
  }

  lemma {:induction false} StaysUnjoined<M>(broken: seq<Piece<M>>, rest: seq<Piece<M>>, fromZero: bool)
    requires !AllJoined(broken, fromZero)
    ensures !AllJoined(broken + rest, fromZero)
  {
    var key :| !Joined(Of(broken, key), fromZero);
    OfPrefix(broken, rest, key);
    if Joined(Of(broken + rest, key), fromZero) {
      JoinedPrefix(Of(broken, key), Of(broken + rest, key), fromZero);
    }
  }

  lemma {:induction false} NextTree(state: map<string, Cursor>, nodes: seq<Node>, i: nat, before: seq<Piece<int>>)
    requires i < |nodes| && nodes[i].segment.Some? && Tracks(state, before + TreePieces(nodes, i), true)
    ensures var p := TreePiece(nodes, nodes[i]);
            if Accepts(state, p, true) then Tracks(state[p.key := CursorAfter(p)], before + TreePieces(nodes, i + 1), true)
            else !AllJoined(before + TreePieces(nodes, |nodes|), true)
  {
    var p, fed := TreePiece(nodes, nodes[i]), before + TreePieces(nodes, i);
    AcceptedStaysJoined(state, fed, p, true);
    assert before + TreePieces(nodes, i + 1) == fed + [p];
    if !Accepts(state, p, true) {
      var rest := TreesAfter(nodes, i + 1);
      StaysUnjoined(fed + [p], rest, true);
      assert before + TreePieces(nodes, |nodes|) == fed + [p] + rest;
    }
  }

  method FeedTrees(state0: map<string, Cursor>, nodes: seq<Node>, ghost before: seq<Piece<int>>)
    returns (state: map<string, Cursor>, ok: bool)
    requires Tracks(state0, before, true)
    ensures ok <==> AllJoined(before + TreePieces(nodes, |nodes|), true)
    ensures ok ==> Tracks(state, before + TreePieces(nodes, |nodes|), true)
  {
    state := state0;
    assert before + [] == before;
    for i := 0 to |nodes|
      invariant Tracks(state, before + TreePieces(nodes, i), true)
    {
      if nodes[i].segment.Some? {
        var p := TreePiece(nodes, nodes[i]);
        NextTree(state, nodes, i, before);
        if !Accepts(state, p, true) {
          return state, false;
        }
        state := state[p.key := CursorAfter(p)];
      } else {
        assert TreePieces(nodes, i + 1) == TreePieces(nodes, i);
      }
    }
    ok := true;
  }

  lemma {:induction false} TreesAfter(nodes: seq<Node>, n: nat) returns (rest: seq<Piece<int>>)
    requires n <= |nodes|
    ensures TreePieces(nodes, |nodes|) == TreePieces(nodes, n) + rest
    decreases |nodes| - n
  {
    if n == |nodes| {
      rest := [];
    } else {
      rest := TreesAfter(nodes, n + 1);
      rest := (if nodes[n].segment.Some? then [TreePiece(nodes, nodes[n])] else []) + rest;
    }
  }

  /** What is left of the stream after the first batches. */
  lemma {:induction false} BatchesAfter(batches: seq<Batch>, n: nat)
    returns (tables: seq<Piece<Coordinate>>, trees: seq<Piece<int>>, refs: seq<Ref>)
    requires n <= |batches|
    ensures AllTables(batches, |batches|) == AllTables(batches, n) + tables
    ensures AllTrees(batches, |batches|) == AllTrees(batches, n) + trees
    ensures AllRefs(batches, |batches|) == AllRefs(batches, n) + refs
    decreases |batches| - n
  {
    if n == |batches| {
      tables, trees, refs := [], [], [];
    } else {
      tables, trees, refs := BatchesAfter(batches, n + 1);
      tables := TablePieces(batches[n].tables, |batches[n].tables|) + tables;
      trees := TreePieces(batches[n].nodes, |batches[n].nodes|) + trees;
      refs := batches[n].indexed + refs;
    }
  }

  lemma {:induction false} BrokenTables(m: Manifest, batches: seq<Batch>, n: nat)
    requires n < |batches| && !AllJoined(AllTables(batches, n) + TablePieces(batches[n].tables, |batches[n].tables|), false)
    ensures !WellFormed(m, batches)
  {
    var tables, trees, refs := BatchesAfter(batches, n + 1);
    BrokenStaysBroken(AllTables(batches, n + 1), tables, false);
  }

  lemma {:induction false} BrokenTrees(m: Manifest, batches: seq<Batch>, n: nat)
    requires n < |batches| && !AllJoined(AllTrees(batches, n) + TreePieces(batches[n].nodes, |batches[n].nodes|), true)
    ensures !WellFormed(m, batches)
  {
    var tables, trees, refs := BatchesAfter(batches, n + 1);
    BrokenStaysBroken(AllTrees(batches, n + 1), trees, true);
  }

  lemma {:induction false} BrokenRefs(m: Manifest, batches: seq<Batch>, n: nat)
    requires n < |batches| && m.schema == "1.1.0" && !(AllRefs(batches, n) + batches[n].indexed <= m.refs)
    ensures !WellFormed(m, batches)
  {
    var tables, trees, refs := BatchesAfter(batches, n + 1);
  }

  /** Slicing the manifest index at the offset compares the next refs with the prefix. */
  lemma {:induction false} RefsNext(m: Manifest, seen: seq<Ref>, next: seq<Ref>)
    requires seen <= m.refs
    ensures |seen| + |next| <= |m.refs| && next == m.refs[|seen|..|seen| + |next|] <==> seen + next <= m.refs
  {
    if seen + next <= m.refs {
      assert m.refs[..|seen + next|] == seen + next;
      assert m.refs[|seen|..|seen| + |next|] == (seen + next)[|seen|..];
    }
    if |seen| + |next| <= |m.refs| && next == m.refs[|seen|..|seen| + |next|] {
      assert m.refs[..|seen| + |next|] == m.refs[..|seen|] + m.refs[|seen|..|seen| + |next|];
    }
  }

  /** The state between two batches of the stream. */
  ghost predicate Streaming(m: Manifest, batches: seq<Batch>, n: nat, tables: map<string, Cursor>, trees: map<string,
                            Cursor>, offset: nat)
    requires n <= |batches|
  {
    && InSequence(m, batches, n)
    && Tracks(tables, AllTables(batches, n), false)
    && Tracks(trees, AllTrees(batches, n), true)
    && (m.schema == "1.1.0" ==> AllRefs(batches, n) <= m.refs && offset == |AllRefs(batches, n)|)
  }

  /** A batch that fits joins the stream. */
  lemma {:induction false} StreamsOn(m: Manifest, batches: seq<Batch>, n: nat, tables: map<string, Cursor>,
                                     trees: map<string, Cursor>, offset: nat)
    requires n < |batches| && InSequence(m, batches, n) && n < |m.batches| && batches[n].index == n && Matches(m, batches[n])
    requires Tracks(tables, AllTables(batches, n) + TablePieces(batches[n].tables, |batches[n].tables|), false)
    requires Tracks(trees, AllTrees(batches, n) + TreePieces(batches[n].nodes, |batches[n].nodes|), true)
    requires m.schema == "1.1.0" ==>
               AllRefs(batches, n) + batches[n].indexed <= m.refs && offset == |AllRefs(batches, n)| + |batches[n].indexed|
    ensures Streaming(m, batches, n + 1, tables, trees, offset)
  {
  }

  /** The references of a batch against the next stretch of the manifest index. */
  method FeedRefs(m: Manifest, batch: Batch, offset0: nat, ghost seen: seq<Ref>) returns (ok: bool, offset: nat)
    requires m.schema == "1.1.0" ==> seen <= m.refs && offset0 == |seen|
    ensures ok <==> (m.schema == "1.1.0" ==> seen + batch.indexed <= m.refs)
    ensures ok && m.schema == "1.1.0" ==> offset == |seen| + |batch.indexed|
  {
    offset := offset0;
    if m.schema == "1.1.0" {
      var next := offset0 + |batch.indexed|;
      RefsNext(m, seen, batch.indexed);
      if next > |m.refs| || batch.indexed != m.refs[offset0..next] {
        return false, offset;
      }
      offset := next;
    }
    ok := true;
  }

  method ValidateNext(m: Manifest, batches: seq<Batch>, n: nat, tables0: map<string, Cursor>, trees0: map<string,
                      Cursor>, offset0: nat)
    returns (ok: bool, tables: map<string, Cursor>, trees: map<string, Cursor>, offset: nat)
    requires n < |batches| && Streaming(m, batches, n, tables0, trees0, offset0)
    ensures ok ==> Streaming(m, batches, n + 1, tables, trees, offset)
    ensures !ok ==> !WellFormed(m, batches)
  {
    ok, tables, trees, offset := false, tables0, trees0, offset0;
    var batch := batches[n];
    if n >= |m.batches| || batch.index != n {
      return;
    }
    ok := ValidateBatch(m, batch);
    if !ok {
      return;
    }
    tables, ok := FeedTables(tables0, batch.tables, AllTables(batches, n));
    if !ok {
      BrokenTables(m, batches, n);
      return;
    }
    trees, ok := FeedTrees(trees0, batch.nodes, AllTrees(batches, n));
    if !ok {
      BrokenTrees(m, batches, n);
      return;
    }
    ok, offset := FeedRefs(m, batch, offset0, AllRefs(batches, n));
    if !ok {
      BrokenRefs(m, batches, n);
      return;
    }
    StreamsOn(m, batches, n, tables, trees, offset);
  }

  lemma {:induction false} EmptyStream(m: Manifest, batches: seq<Batch>)
    ensures Streaming(m, batches, 0, map[], map[], 0)
  {
  }

  predicate AllClosed(cursors: map<string, Cursor>)
  {
    forall key :: key in cursors ==> cursors[key].closed
  }

  /** At the end of the stream nothing is left to ask but whether it was all of it. */
  lemma {:induction false} EndOfStream(m: Manifest, batches: seq<Batch>, tables: map<string, Cursor>,
                                       trees: map<string, Cursor>, offset: nat)
    requires Streaming(m, batches, |batches|, tables, trees, offset)
    ensures WellFormed(m, batches) <==>
              && |batches| == |m.batches| && (m.schema == "1.1.0" ==> offset == |m.refs|)
              && AllClosed(tables) && AllClosed(trees)
  {
    ClosedIsComplete(tables, AllTables(batches, |batches|), false);
    ClosedIsComplete(trees, AllTrees(batches, |batches|), true);
    PrefixIsWhole(AllRefs(batches, |batches|), m.refs);
  }

  lemma {:induction false} PrefixIsWhole(seen: seq<Ref>, all: seq<Ref>)
    ensures seen <= all ==> (|seen| == |all| <==> seen == all)
  {
  }

  /** `validate_batches`. */
  method ValidateBatches(m: Manifest, batches: seq<Batch>) returns (ok: bool)
    ensures ok <==> WellFormed(m, batches)
  {
    var tables: map<string, Cursor>, trees: map<string, Cursor>, offset := map[], map[], 0;
    EmptyStream(m, batches);
    for n := 0 to |batches|
      invariant Streaming(m, batches, n, tables, trees, offset)
    {
      ok, tables, trees, offset := ValidateNext(m, batches, n, tables, trees, offset);
      if !ok {
        return;
      }
    }
    EndOfStream(m, batches, tables, trees, offset);
    if |batches| != |m.batches| {
      return false;
    }
    if m.schema == "1.1.0" && offset != |m.refs| {
      return false;
    }
    ok := AllClosed(tables) && AllClosed(trees);
  }
}
