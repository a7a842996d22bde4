/** What the batched statements do to the target tables: the same as writing the
    selected rows one by one in plan order, as long as no upserting statement meets one
    identity twice. */
module BatchSemantics {
  import opened Wrappers
  import opened LoadPlans
  import opened WriteBatches

  type RowValues = map<string, Value>

  /** The rows of a table in the order in which they came. */
  type Rows = seq<RowValues>

  // ---------------------------------------------------------------------------
  // Unique keys
  // ---------------------------------------------------------------------------

  /** A row without value or with a null in a key column has no key there. */
  function KeyOf(columns: seq<string>, row: RowValues): Option<seq<Value>>
  {
    if |columns| > 0 && forall i :: 0 <= i < |columns| ==> columns[i] in row && row[columns[i]].Scalar? then
      Some(seq(|columns|, i requires 0 <= i < |columns| && columns[i] in row => row[columns[i]]))
    else None
  }

  predicate SameKey(columns: seq<string>, a: RowValues, b: RowValues)
  {
    KeyOf(columns, a).Some? && KeyOf(columns, a) == KeyOf(columns, b)
  }

  /** Two rows share a key exactly when each of its columns has one and the same value in both,
      and no null. */
  lemma {:induction false} SameKeyMeans(columns: seq<string>, a: RowValues, b: RowValues)
    ensures SameKey(columns, a, b) <==>
              columns != [] && forall i :: 0 <= i < |columns| ==>
                columns[i] in a && columns[i] in b && a[columns[i]].Scalar? && a[columns[i]] == b[columns[i]]
  {
    if SameKey(columns, a, b) {
      forall i | 0 <= i < |columns|
        ensures columns[i] in a && columns[i] in b && a[columns[i]].Scalar? && a[columns[i]] == b[columns[i]]
      {
        assert KeyOf(columns, a).value[i] == KeyOf(columns, b).value[i];
      }
    }
    if KeyOf(columns, a).Some? && KeyOf(columns, b).Some? && forall i :: 0 <= i < |columns| ==> a[columns[i]] == b[columns[i]] {
      assert KeyOf(columns, a).value == KeyOf(columns, b).value;
    }
  }

  predicate Clash(keys: seq<seq<string>>, a: RowValues, b: RowValues)
  {
    exists k :: k in keys && SameKey(k, a, b)
  }

  /** No unique key has one value in two rows. */
  predicate Unique(keys: seq<seq<string>>, t: Rows)
  {
    forall i, j :: 0 <= i < j < |t| ==> !Clash(keys, t[i], t[j])
  }

  // ---------------------------------------------------------------------------
  // Statements of one row
  // ---------------------------------------------------------------------------

  /** What the rows of one statement share: the unique keys of their table and, if it
      updates on conflict, the key to look for and the columns to update. */
  datatype Shape = Shape(keys: seq<seq<string>>, upserts: bool, identity: seq<string>, updates: seq<string>)

  function Merged(current: RowValues, row: RowValues, updates: seq<string>): RowValues
  {
    current + map c | c in row && c in updates :: row[c]
  }

  /** The row that an upsert meets among the first `n`. */
  function TargetUpTo(s: Shape, t: Rows, row: RowValues, n: nat): Option<nat>
    requires n <= |t|
  {
    if n == 0 then None
    else
      var before := TargetUpTo(s, t, row, n - 1);
      if before.Some? then before
      else if s.upserts && SameKey(s.identity, t[n - 1], row) then Some(n - 1)
      else None
  }

  function Target(s: Shape, t: Rows, row: RowValues): Option<nat>
  {
    TargetUpTo(s, t, row, |t|)
  }

  lemma {:induction false} TargetIsFirst(s: Shape, t: Rows, row: RowValues, n: nat)
    requires n <= |t|
    ensures var i := TargetUpTo(s, t, row, n);
            if i.Some? then s.upserts && i.value < n && SameKey(s.identity, t[i.value], row) &&
                            forall j :: 0 <= j < i.value ==> !SameKey(s.identity, t[j], row)
            else s.upserts ==> forall j :: 0 <= j < n ==> !SameKey(s.identity, t[j], row)
  {
    if n > 0 {
      TargetIsFirst(s, t, row, n - 1);
    }
  }

  /** The row joins the table, or is merged into the one it meets. */
  function Placed(s: Shape, t: Rows, target: Option<nat>, row: RowValues): Rows
    requires target.Some? ==> target.value < |t|
  {
    if target.None? then t + [row] else t[target.value := Merged(t[target.value], row, s.updates)]
  }

  /** One INSERT, or one INSERT ... ON CONFLICT DO UPDATE, of a single row. */
  function WriteOne(s: Shape, t: Rows, row: RowValues): Option<Rows>
  {
    TargetIsFirst(s, t, row, |t|);
    var after := Placed(s, t, Target(s, t, row), row);
    if Unique(s.keys, after) then Some(after) else None
  }

  function WriteEach(s: Shape, t: Rows, rows: Rows, n: nat): Option<Rows>
    requires n <= |rows|
  {
    if n == 0 then Some(t)
    else
      var before := WriteEach(s, t, rows, n - 1);
      if before.None? then None else WriteOne(s, before.value, rows[n - 1])
  }

  // ---------------------------------------------------------------------------
  // Statements of many rows
  // ---------------------------------------------------------------------------

  /** Two of the first rows have one identity. */
  ghost predicate Repeats(identity: seq<string>, rows: Rows, n: nat)
    requires n <= |rows|
  {
    exists i, j :: 0 <= i < j < n && SameKey(identity, rows[i], rows[j])
  }

  function StatementNext(s: Shape, t: Rows, before: Rows, row: RowValues): (after: Rows)
    requires |before| >= |t|
    ensures |after| >= |t|
  {
    TargetIsFirst(s, t, row, |t|);
    var i := Target(s, t, row);
    if i.None? then before + [row] else before[i.value := Merged(t[i.value], row, s.updates)]
  }

  /** A statement decides for all its rows against the table as it was before whether they
      are new. */
  function StatementUpTo(s: Shape, t: Rows, rows: Rows, n: nat): (after: Rows)
    requires n <= |rows|
    ensures |after| >= |t|
  {
    if n == 0 then t
    else
      StatementNext(s, t, StatementUpTo(s, t, rows, n - 1), rows[n - 1])
  }

  ghost predicate UniqueUpTo(s: Shape, t: Rows, rows: Rows, n: nat)
    requires n <= |rows|
  {
    n > 0 ==> UniqueUpTo(s, t, rows, n - 1) && Unique(s.keys, StatementUpTo(s, t, rows, n))
  }

  /** It fails when an upsert meets one identity twice, or when a row violates a unique key
      as it is written. */
  ghost predicate StatementFails(s: Shape, t: Rows, rows: Rows)
  {
    (s.upserts && Repeats(s.identity, rows, |rows|)) || !UniqueUpTo(s, t, rows, |rows|)
  }

  ghost function RunStatement(s: Shape, t: Rows, rows: Rows): Option<Rows>
  {
    if StatementFails(s, t, rows) then None else Some(StatementUpTo(s, t, rows, |rows|))
  }

  /** The rows that meet nothing, in order. */
  function NewRows(s: Shape, t: Rows, rows: Rows, n: nat): Rows
    requires n <= |rows|
  {
    if n == 0 then []
    else NewRows(s, t, rows, n - 1) + if Target(s, t, rows[n - 1]).None? then [rows[n - 1]] else []
  }

  /** The simultaneous effect: every row met is merged with the row that meets it, the others
      stay, and the new rows follow. */
  ghost predicate StatementResult(s: Shape, t: Rows, rows: Rows, n: nat, after: Rows)
    requires n <= |rows|
  {
    && |after| >= |t| && after[|t|..] == NewRows(s, t, rows, n)
    && (forall i, m :: 0 <= i < |t| && 0 <= m < n && Target(s, t, rows[m]) == Some(i) ==> after[i] == Merged(t[i], rows[m], s.updates))
    && (forall i :: 0 <= i < |t| && !Met(s, t, rows, n, i) ==> after[i] == t[i])
  }

  ghost predicate Met(s: Shape, t: Rows, rows: Rows, n: nat, i: int)
    requires n <= |rows|
  {
    exists m :: 0 <= m < n && Target(s, t, rows[m]) == Some(i)
  }

  // ---------------------------------------------------------------------------
  // A statement and its rows one by one
  // ---------------------------------------------------------------------------

  lemma {:induction false} SameTargetSameKey(s: Shape, t: Rows, a: RowValues, b: RowValues)
    requires Target(s, t, a).Some? && Target(s, t, a) == Target(s, t, b)
    ensures s.upserts && SameKey(s.identity, a, b)
  {
    TargetIsFirst(s, t, a, |t|);
    TargetIsFirst(s, t, b, |t|);
  }

  lemma {:induction false} MetNext(s: Shape, t: Rows, rows: Rows, n: nat)
    requires n < |rows|
    ensures forall i :: Met(s, t, rows, n + 1, i) <==> Met(s, t, rows, n, i) || Target(s, t, rows[n]) == Some(i)
  {
    forall i
      ensures Met(s, t, rows, n + 1, i) <==> Met(s, t, rows, n, i) || Target(s, t, rows[n]) == Some(i)
    {
      if Met(s, t, rows, n + 1, i) {
        var m :| 0 <= m < n + 1 && Target(s, t, rows[m]) == Some(i);
        assert m == n || Met(s, t, rows, n, i);
      }
      if Met(s, t, rows, n, i) {
        var m :| 0 <= m < n && Target(s, t, rows[m]) == Some(i);
        assert 0 <= m < n + 1;
      }
    }
  }

  /** Only a repetition meets a row twice. */
  lemma {:induction false} MetTwice(s: Shape, t: Rows, rows: Rows, n: nat)
    requires n < |rows| && Target(s, t, rows[n]).Some? && Met(s, t, rows, n, Target(s, t, rows[n]).value)
    ensures s.upserts && Repeats(s.identity, rows, n + 1)
  {
    var m :| 0 <= m < n && Target(s, t, rows[m]) == Some(Target(s, t, rows[n]).value);
    SameTargetSameKey(s, t, rows[m], rows[n]);
  }

  lemma {:induction false} NotMetTwice(s: Shape, t: Rows, rows: Rows, n: nat)
    requires n < |rows| && (s.upserts ==> !Repeats(s.identity, rows, n + 1))
    ensures Target(s, t, rows[n]).Some? ==> !Met(s, t, rows, n, Target(s, t, rows[n]).value)
  {
    if Target(s, t, rows[n]).Some? && Met(s, t, rows, n, Target(s, t, rows[n]).value) {
      MetTwice(s, t, rows, n);
    }
  }

  lemma {:induction false} StatementIsSimultaneous(s: Shape, t: Rows, rows: Rows, n: nat)
    requires n <= |rows| && (s.upserts ==> !Repeats(s.identity, rows, n))
    ensures StatementResult(s, t, rows, n, StatementUpTo(s, t, rows, n))
  {
    if n > 0 {
      StatementIsSimultaneous(s, t, rows, n - 1);
      MetNext(s, t, rows, n - 1);
      NotMetTwice(s, t, rows, n - 1);
      ResultNext(s, t, rows, n - 1, StatementUpTo(s, t, rows, n - 1));
    }
  }

  lemma {:induction false} ResultNext(s: Shape, t: Rows, rows: Rows, n: nat, before: Rows)
    requires n < |rows| && StatementResult(s, t, rows, n, before)
    requires Target(s, t, rows[n]).Some? ==> !Met(s, t, rows, n, Target(s, t, rows[n]).value)
    requires forall i :: Met(s, t, rows, n + 1, i) <==> Met(s, t, rows, n, i) || Target(s, t, rows[n]) == Some(i)
    ensures StatementResult(s, t, rows, n + 1, StatementNext(s, t, before, rows[n]))
  {
    TargetIsFirst(s, t, rows[n], |t|);
    var i := Target(s, t, rows[n]);
    var after := StatementNext(s, t, before, rows[n]);
    assert after[|t|..] == before[|t|..] + if i.None? then [rows[n]] else [];
    forall j, m | 0 <= j < |t| && 0 <= m < n + 1 && Target(s, t, rows[m]) == Some(j)
      ensures after[j] == Merged(t[j], rows[m], s.updates)
    {
      if m < n {
        assert Met(s, t, rows, n, j);
      }
    }
  }

  /** The simultaneous effect determines the table. */
  lemma {:induction false} StatementResultUnique(s: Shape, t: Rows, rows: Rows, a: Rows, b: Rows)
    requires StatementResult(s, t, rows, |rows|, a) && StatementResult(s, t, rows, |rows|, b)
    ensures a == b
  {
    forall i | 0 <= i < |t|
      ensures a[i] == b[i]
    {
      if Met(s, t, rows, |rows|, i) {
        var m :| 0 <= m < |rows| && Target(s, t, rows[m]) == Some(i);
        assert a[i] == Merged(t[i], rows[m], s.updates);
      }
    }
    assert a == a[..|t|] + a[|t|..] && b == b[..|t|] + b[|t|..];
    assert a[..|t|] == b[..|t|];
  }

  /** What an upsert looks for is a unique key that it does not update. */
  ghost predicate KeepsIdentity(s: Shape)
  {
    s.upserts ==> s.identity in s.keys && forall c :: c in s.updates ==> c !in s.identity
  }

  lemma {:induction false} MergedKeepsKey(identity: seq<string>, current: RowValues, row: RowValues, updates: seq<string>)
    requires forall c :: c in updates ==> c !in identity
    ensures KeyOf(identity, Merged(current, row, updates)) == KeyOf(identity, current)
  {
    var merged := Merged(current, row, updates);
    forall i | 0 <= i < |identity|
      ensures identity[i] in merged <==> identity[i] in current
      ensures identity[i] in current ==> merged[identity[i]] == current[identity[i]]
    {
      assert identity[i] in identity;
    }
    if KeyOf(identity, current).Some? {
      assert KeyOf(identity, merged).value == KeyOf(identity, current).value;
    }
  }

  lemma {:induction false} NewRowsAreRows(s: Shape, t: Rows, rows: Rows, n: nat, row: RowValues) returns (m: nat)
    requires n <= |rows| && row in NewRows(s, t, rows, n)
    ensures m < n && rows[m] == row
  {
    if Target(s, t, rows[n - 1]).None? && rows[n - 1] == row {
      m := n - 1;
    } else {
      m := NewRowsAreRows(s, t, rows, n - 1, row);
    }
  }

  /** Half-way through a statement the next row meets what it met before the statement. */
  lemma {:induction false} KeysStay(s: Shape, t: Rows, rows: Rows, n: nat, before: Rows)
    requires n < |rows| && KeepsIdentity(s) && s.upserts && !Repeats(s.identity, rows, n + 1)
    requires StatementResult(s, t, rows, n, before)
    ensures forall i :: 0 <= i < |t| ==> KeyOf(s.identity, before[i]) == KeyOf(s.identity, t[i])
    ensures forall i :: |t| <= i < |before| ==> !SameKey(s.identity, before[i], rows[n])
  {
    forall i | 0 <= i < |t|
      ensures KeyOf(s.identity, before[i]) == KeyOf(s.identity, t[i])
    {
      if Met(s, t, rows, n, i) {
        var m :| 0 <= m < n && Target(s, t, rows[m]) == Some(i);
        MergedKeepsKey(s.identity, t[i], rows[m], s.updates);
      }
    }
    forall i | |t| <= i < |before|
      ensures !SameKey(s.identity, before[i], rows[n])
    {
      assert before[i] == before[|t|..][i - |t|];
      var m := NewRowsAreRows(s, t, rows, n, before[i]);
    }
  }

  lemma {:induction false} SameTarget(s: Shape, t: Rows, before: Rows, row: RowValues)
    requires s.upserts && |before| >= |t|
    requires forall i :: 0 <= i < |t| ==> KeyOf(s.identity, before[i]) == KeyOf(s.identity, t[i])
    requires forall i :: |t| <= i < |before| ==> !SameKey(s.identity, before[i], row)
    ensures Target(s, before, row) == Target(s, t, row)
  {
    TargetIsFirst(s, t, row, |t|);
    TargetIsFirst(s, before, row, |before|);
    assert forall i :: 0 <= i < |t| ==> (SameKey(s.identity, before[i], row) <==> SameKey(s.identity, t[i], row));
  }

  lemma {:induction false} TargetStays(s: Shape, t: Rows, rows: Rows, n: nat, before: Rows)
    requires n < |rows| && KeepsIdentity(s) && (s.upserts ==> !Repeats(s.identity, rows, n + 1))
    requires StatementResult(s, t, rows, n, before)
    ensures Target(s, before, rows[n]) == Target(s, t, rows[n])
    ensures Target(s, t, rows[n]).Some? ==> var i := Target(s, t, rows[n]).value; i < |t| && before[i] == t[i]
  {
    TargetIsFirst(s, t, rows[n], |t|);
    if s.upserts {
      KeysStay(s, t, rows, n, before);
      SameTarget(s, t, before, rows[n]);
    } else {
      TargetIsFirst(s, before, rows[n], |before|);
    }
    NotMetTwice(s, t, rows, n);
  }

  /** Row by row in order has the statement's effect as long as no row violates a key. */
  lemma {:induction false} EachIsStatement(s: Shape, t: Rows, rows: Rows, n: nat)
    requires n <= |rows| && KeepsIdentity(s) && (s.upserts ==> !Repeats(s.identity, rows, n))
    ensures WriteEach(s, t, rows, n) == if UniqueUpTo(s, t, rows, n) then Some(StatementUpTo(s, t, rows, n)) else None
  {
    if n > 0 {
      EachIsStatement(s, t, rows, n - 1);
      StatementIsSimultaneous(s, t, rows, n - 1);
      TargetStays(s, t, rows, n - 1, StatementUpTo(s, t, rows, n - 1));
    }
  }

  /** The statement succeeds exactly when writing its rows one by one does and no
      upserting statement repeats a key; then both leave the same table. */
  lemma {:induction false} StatementAgreesWithEach(s: Shape, t: Rows, rows: Rows)
    requires KeepsIdentity(s)
    ensures !StatementFails(s, t, rows) <==>
            WriteEach(s, t, rows, |rows|).Some? && (s.upserts ==> !Repeats(s.identity, rows, |rows|))
    ensures !StatementFails(s, t, rows) ==> StatementResult(s, t, rows, |rows|, WriteEach(s, t, rows, |rows|).value)
  {
    if s.upserts ==> !Repeats(s.identity, rows, |rows|) {
      EachIsStatement(s, t, rows, |rows|);
      StatementIsSimultaneous(s, t, rows, |rows|);
    }
  }

  /** A statement leaves what its rows leave one after another, unless it is an upsert
      that meets a key twice. */
  lemma {:induction false} StatementIsRowByRow(s: Shape, t: Rows, rows: Rows)
    requires KeepsIdentity(s)
    ensures RunStatement(s, t, rows) ==
            if s.upserts && Repeats(s.identity, rows, |rows|) then None else WriteEach(s, t, rows, |rows|)
  {
    if s.upserts ==> !Repeats(s.identity, rows, |rows|) {
      EachIsStatement(s, t, rows, |rows|);
    }
  }

  lemma {:induction false} InsertsAppend(s: Shape, t: Rows, rows: Rows, n: nat)
    requires n <= |rows| && !s.upserts
    ensures StatementUpTo(s, t, rows, n) == t + rows[..n]
  {
    if n > 0 {
      InsertsAppend(s, t, rows, n - 1);
      TargetIsFirst(s, t, rows[n - 1], |t|);
    }
  }

  lemma {:induction false} UniquePrefix(keys: seq<seq<string>>, t: Rows, n: nat)
    requires n <= |t| && Unique(keys, t)
    ensures Unique(keys, t[..n])
  {
  }

  lemma {:induction false} InsertsUnique(s: Shape, t: Rows, rows: Rows, n: nat)
    requires n <= |rows| && !s.upserts && Unique(s.keys, t)
    ensures UniqueUpTo(s, t, rows, n) <==> Unique(s.keys, t + rows[..n])
  {
    InsertsAppend(s, t, rows, n);
    if n == 0 {
      assert t + rows[..0] == t;
    } else {
      InsertsUnique(s, t, rows, n - 1);
      assert (t + rows[..n])[..|t| + n - 1] == t + rows[..n - 1];
      if Unique(s.keys, t + rows[..n]) {
        UniquePrefix(s.keys, t + rows[..n], |t| + n - 1);
      }
    }
  }

  /** A plain insert appends its rows, exactly when no unique key is then taken twice: not
      by an old row and a new one, and not by two new ones. */
  lemma {:induction false} InsertFailsOnDuplicates(s: Shape, t: Rows, rows: Rows)
    requires !s.upserts && Unique(s.keys, t)
    ensures RunStatement(s, t, rows) == if Unique(s.keys, t + rows) then Some(t + rows) else None
  {
    InsertsUnique(s, t, rows, |rows|);
    InsertsAppend(s, t, rows, |rows|);
    assert rows[..|rows|] == rows;
  }

  // ---------------------------------------------------------------------------
  // Whole runs over all tables
  // ---------------------------------------------------------------------------

  type Database = map<string, Rows>

  function ValuesUpTo(cells: seq<Cell>, n: nat): RowValues
    requires n <= |cells|
  {
    if n == 0 then map[] else ValuesUpTo(cells, n - 1)[cells[n - 1].field := cells[n - 1].value]
  }

  function RowOf(record: Record): RowValues
  {
    ValuesUpTo(record.cells, |record.cells|)
  }

  function RowsOf(records: seq<Record>): Rows
  {
    seq(|records|, i requires 0 <= i < |records| => RowOf(records[i]))
  }

  function ColumnsOf(keys: seq<UniqueKey>): seq<seq<string>>
  {
    if |keys| == 0 then []
    else (if keys[0].supported then [keys[0].columns] else []) + ColumnsOf(keys[1..])
  }

  /** The primary key and the unique keys over plain columns. */
  function UniqueKeys(table: Table): seq<seq<string>>
  {
    [table.primaryKey] + ColumnsOf(table.uniqueKeys)
  }

  predicate Upserts(operation: Operation, step: Step)
  {
    operation == Upsert && step.updates != []
  }

  function ShapeOf(table: Table, operation: Operation, step: Step): Shape
  {
    Shape(UniqueKeys(table), Upserts(operation, step), step.identity, step.updates)
  }

  /** One planned step as a statement of its own. */
  function RunStep(db: Database, tables: map<string, Table>, operation: Operation, records: map<string, Record>,
                   step: Step): Option<Database>
  {
    if step.table !in db || step.table !in tables || step.unit !in records then None
    else
      var after := WriteOne(ShapeOf(tables[step.table], operation, step), db[step.table], RowOf(records[step.unit]));
      if after.None? then None else Some(db[step.table := after.value])
  }

  /** Runs one thing after the other as long as none fails. */
  function Fold<X>(run: (Database, X) -> Option<Database>, db: Database, xs: seq<X>, n: nat): Option<Database>
    requires n <= |xs|
  {
    if n == 0 then Some(db)
    else
      var before := Fold(run, db, xs, n - 1);
      if before.None? then None else run(before.value, xs[n - 1])
  }

  function StepRunner(tables: map<string, Table>, operation: Operation,
                      records: map<string, Record>): (Database, Step) -> Option<Database>
  {
    (db, step) => RunStep(db, tables, operation, records, step)
  }

  /** The steps as statements of their own, in order. */
  function RunSteps(db: Database, tables: map<string, Table>, operation: Operation, records: map<string, Record>,
                    steps: seq<Step>): Option<Database>
  {
    Fold(StepRunner(tables, operation, records), db, steps, |steps|)
  }

  /** One multi-row statement on its table. */
  ghost function RunBatch(db: Database, tables: map<string, Table>, operation: Operation, b: Batch): Option<Database>
  {
    if |b.steps| == 0 then Some(db)
    else if b.steps[0].table !in db || b.steps[0].table !in tables then None
    else
      var first := b.steps[0];
      var s := ShapeOf(tables[first.table], operation, first).(upserts := b.upserts);
      var after := RunStatement(s, db[first.table], RowsOf(b.records));
      if after.None? then None else Some(db[first.table := after.value])
  }

  ghost function BatchRunner(tables: map<string, Table>, operation: Operation): (Database, Batch) -> Option<Database>
  {
    (db, b) => RunBatch(db, tables, operation, b)
  }

  ghost function RunBatches(db: Database, tables: map<string, Table>, operation: Operation,
                            batches: seq<Batch>): Option<Database>
  {
    Fold(BatchRunner(tables, operation), db, batches, |batches|)
  }

  /** No upserting batch meets one identity twice. */
  ghost predicate KeysDistinctIn(b: Batch)
  {
    b.upserts && |b.steps| > 0 ==> !Repeats(b.steps[0].identity, RowsOf(b.records), |b.records|)
  }

  ghost predicate UpsertKeysDistinct(batches: seq<Batch>)
  {
    forall i :: 0 <= i < |batches| ==> KeysDistinctIn(batches[i])
  }

  /** Of a step that upserts: its identity is a unique key of its table, and it updates no
      column of it. */
  ghost predicate KeyedStep(tables: map<string, Table>, operation: Operation, step: Step)
  {
    step.table in tables ==> KeepsIdentity(ShapeOf(tables[step.table], operation, step))
  }

  ghost predicate OneShape(operation: Operation, records: map<string, Record>, b: Batch)
  {
    && 0 < |b.steps| == |b.records|
    && (forall i :: 0 <= i < |b.steps| ==> SameShape(b.steps[i], b.steps[0]))
    && (forall i :: 0 <= i < |b.steps| ==> b.steps[i].unit in records && b.records[i] == records[b.steps[i].unit])
    && b.upserts == Upserts(operation, b.steps[0])
  }

  /** A step of one shape with `first` does to the database what it does to its table. */
  lemma {:induction false} StepOnTable(db: Database, tables: map<string, Table>, operation: Operation,
                                       records: map<string, Record>, first: Step, step: Step, t: Rows)
    requires SameShape(step, first) && first.table in db && first.table in tables && step.unit in records
    ensures var next := WriteOne(ShapeOf(tables[first.table], operation, first), t, RowOf(records[step.unit]));
            RunStep(db[first.table := t], tables, operation, records, step) == Stored(db, first.table, next)
  {
    var next := WriteOne(ShapeOf(tables[first.table], operation, first), t, RowOf(records[step.unit]));
    assert ShapeOf(tables[step.table], operation, step) == ShapeOf(tables[first.table], operation, first);
    assert next.Some? ==> db[first.table := t][first.table := next.value] == db[first.table := next.value];
  }

  /** A step that writes one row to the table `name` and does nothing else. */
  ghost predicate WritesRow(run: (Database, Step) -> Option<Database>, s: Shape, db: Database, name: string, step: Step,
                            row: RowValues)
  {
    forall t: Rows ::
      run(db[name := t], step) == Stored(db, name, WriteOne(s, t, row))
  }

  function Stored(db: Database, name: string, t: Option<Rows>): Option<Database>
  {
    if t.None? then None else Some(db[name := t.value])
  }

  lemma {:induction false} RowStored(run: (Database, Step) -> Option<Database>, s: Shape, db: Database, name: string,
                                     step: Step, row: RowValues, t: Rows)
    requires WritesRow(run, s, db, name, step, row)
    ensures run(db[name := t], step) == Stored(db, name, WriteOne(s, t, row))
  {
  }

  lemma {:induction false} StepsOnTable(run: (Database, Step) -> Option<Database>, s: Shape, db: Database, name: string,
                                        steps: seq<Step>, rows: Rows, n: nat)
    requires name in db && |steps| == |rows| && n <= |steps|
    requires forall i :: 0 <= i < |steps| ==> WritesRow(run, s, db, name, steps[i], rows[i])
    ensures Fold(run, db, steps, n) == Stored(db, name, WriteEach(s, db[name], rows, n))
  {
    if n == 0 {
      assert db == db[name := db[name]];
    } else {
      StepsOnTable(run, s, db, name, steps, rows, n - 1);
      var before := WriteEach(s, db[name], rows, n - 1);
      if before.Some? {
        RowStored(run, s, db, name, steps[n - 1], rows[n - 1], before.value);
      }
    }
  }

  lemma {:induction false} StepsOfBatch(db: Database, tables: map<string, Table>, operation: Operation,
                                        records: map<string, Record>, b: Batch)
    requires OneShape(operation, records, b) && b.steps[0].table in db && b.steps[0].table in tables
    ensures var first := b.steps[0];
            var each := WriteEach(ShapeOf(tables[first.table], operation, first), db[first.table], RowsOf(b.records), |b.records|);
            RunSteps(db, tables, operation, records, b.steps) == Stored(db, first.table, each)
  {
    var first, run := b.steps[0], StepRunner(tables, operation, records);
    var s := ShapeOf(tables[first.table], operation, first);
    forall i | 0 <= i < |b.steps|
      ensures WritesRow(run, s, db, first.table, b.steps[i], RowsOf(b.records)[i])
    {
      assert SameShape(b.steps[i], first);
      forall t: Rows
        ensures run(db[first.table := t], b.steps[i]) == Stored(db, first.table, WriteOne(s, t, RowsOf(b.records)[i]))
      {
        StepOnTable(db, tables, operation, records, first, b.steps[i], t);
      }
    }
    StepsOnTable(run, s, db, first.table, b.steps, RowsOf(b.records), |b.steps|);
  }

  lemma {:induction false} WellFormedHasOneShape(policy: Policy, operation: Operation, records: map<string, Record>,
                                                 b: Batch)
    requires WellFormed(policy, operation, records, b)
    ensures OneShape(operation, records, b)
  {
  }

  lemma {:induction false} BatchIsStepByStep(db: Database, tables: map<string, Table>, operation: Operation,
                                             records: map<string, Record>, b: Batch)
    requires OneShape(operation, records, b) && KeyedStep(tables, operation, b.steps[0])
    ensures RunBatch(db, tables, operation, b) ==
            if KeysDistinctIn(b) then RunSteps(db, tables, operation, records, b.steps) else None
  {
    var first := b.steps[0];
    if first.table in db && first.table in tables {
      var s := ShapeOf(tables[first.table], operation, first);
      assert s.(upserts := b.upserts) == s;
      StepsOfBatch(db, tables, operation, records, b);
      StatementIsRowByRow(s, db[first.table], RowsOf(b.records));
    } else {
      FirstFails(StepRunner(tables, operation, records), db, b.steps, |b.steps|);
    }
  }

  lemma {:induction false} FirstFails<X>(run: (Database, X) -> Option<Database>, db: Database, xs: seq<X>, n: nat)
    requires 0 < n <= |xs| && run(db, xs[0]).None?
    ensures Fold(run, db, xs, n).None?
  {
    if n > 1 {
      FirstFails(run, db, xs, n - 1);
    } else {
      assert Fold(run, db, xs, 0) == Some(db);
    }
  }

  lemma {:induction false} FoldAppend<X>(run: (Database, X) -> Option<Database>, db: Database, a: seq<X>, b: seq<X>, n: nat)
    requires n <= |b|
    ensures var before := Fold(run, db, a, |a|);
            Fold(run, db, a + b, |a| + n) == if before.None? then None else Fold(run, before.value, b, n)
  {
    if n == 0 {
      FoldOfPrefix(run, db, a, b, |a|);
    } else {
      FoldAppend(run, db, a, b, n - 1);
      assert (a + b)[|a| + n - 1] == b[n - 1];
    }
  }

  lemma {:induction false} FoldOfPrefix<X>(run: (Database, X) -> Option<Database>, db: Database, a: seq<X>, b: seq<X>, n: nat)
    requires n <= |a|
    ensures Fold(run, db, a + b, n) == Fold(run, db, a, n)
  {
    if n > 0 {
      FoldOfPrefix(run, db, a, b, n - 1);
    }
  }

  /** A batch that may run does what its steps do. */
  ghost predicate Follows(run: (Database, Step) -> Option<Database>, runBatch: (Database, Batch) -> Option<Database>, b: Batch)
  {
    forall db: Database :: runBatch(db, b) == if KeysDistinctIn(b) then Fold(run, db, b.steps, |b.steps|) else None
  }

  lemma {:induction false} BatchesFollowSteps(run: (Database, Step) -> Option<Database>,
                                              runBatch: (Database, Batch) -> Option<Database>, db: Database,
                                              batches: seq<Batch>, n: nat)
    requires n <= |batches| && forall i :: 0 <= i < |batches| ==> Follows(run, runBatch, batches[i])
    ensures Fold(runBatch, db, batches, n) ==
            if UpsertKeysDistinct(batches[..n]) then Fold(run, db, AllSteps(batches[..n]), |AllSteps(batches[..n])|) else None
  {
    if n > 0 {
      var front, last := batches[..n - 1], batches[n - 1];
      BatchesFollowSteps(run, runBatch, db, batches, n - 1);
      assert batches[..n] == front + [last];
      DistinctInLast(front, last);
      AllStepsNext(front, last);
      FoldAppend(run, db, AllSteps(front), last.steps, |last.steps|);
      assert Follows(run, runBatch, last);
    }
  }

  lemma {:induction false} DistinctInLast(front: seq<Batch>, last: Batch)
    ensures UpsertKeysDistinct(front + [last]) <==> UpsertKeysDistinct(front) && KeysDistinctIn(last)
  {
    var all := front + [last];
    assert all[|front|] == last && forall i :: 0 <= i < |front| ==> all[i] == front[i];
  }

  lemma {:induction false} AllStepsNext(front: seq<Batch>, last: Batch)
    ensures AllSteps(front + [last]) == AllSteps(front) + last.steps
  {
    assert (front + [last])[..|front|] == front;
  }

  // ---------------------------------------------------------------------------
  // The batches of the generator
  // ---------------------------------------------------------------------------

  lemma {:induction false} MutableLeavesIdentity(columns: seq<string>, identity: seq<string>, primaryKey: seq<string>)
    ensures forall c :: c in Outside(columns, identity, primaryKey) ==> c !in identity
    decreases |columns|
  {
    if |columns| > 0 {
      MutableLeavesIdentity(columns[1..], identity, primaryKey);
    }
  }

  lemma {:induction false} SupportedKeyIsListed(keys: seq<UniqueKey>, k: UniqueKey)
    requires k in keys && k.supported
    ensures k.columns in ColumnsOf(keys)
    decreases |keys|
  {
    if keys[0] != k {
      SupportedKeyIsListed(keys[1..], k);
    }
  }

  /** The generator takes an upserting step only if it looks for a unique key and updates
      none of its columns. */
  lemma {:induction false} TakenIsKeyed(operation: Operation, tables: map<string, Table>, records: map<string, Record>,
                                        policy: Policy, chosen: Option<set<string>>, step: Step)
    requires step.unit in records && Judge(operation, tables, records, policy, chosen, step).Take?
    ensures KeyedStep(tables, operation, step)
  {
    if Upserts(operation, step) {
      var table := tables[step.table];
      MutableLeavesIdentity(step.columns, step.identity, table.primaryKey);
      var k :| k in table.uniqueKeys && k.supported && k.columns == step.identity;
      SupportedKeyIsListed(table.uniqueKeys, k);
    }
  }

  lemma {:induction false} SelectedIsKeyed(operation: Operation, tables: map<string, Table>,
                                           records: map<string, Record>, policy: Policy, chosen: Option<set<string>>,
                                           steps: seq<Step>, step: Step)
    requires Judged(operation, tables, records, policy, chosen, steps) && step in Selected(steps, chosen)
    ensures KeyedStep(tables, operation, step)
  {
    SelectedAreSteps(steps, chosen, step);
    var i :| 0 <= i < |steps| && steps[i] == step;
    TakenWrites(operation, tables, records, policy, chosen, steps[i]);
    TakenIsKeyed(operation, tables, records, policy, chosen, step);
  }

  lemma {:induction false} FirstStepIsListed(batches: seq<Batch>, i: nat)
    requires i < |batches| && |batches[i].steps| > 0
    ensures batches[i].steps[0] in AllSteps(batches)
    decreases |batches|
  {
    if i < |batches| - 1 {
      FirstStepIsListed(batches[..|batches| - 1], i);
    }
  }

  lemma {:induction false} EmittedFollows(policy: Policy, tables: map<string, Table>, operation: Operation,
                                          records: map<string, Record>, b: Batch)
    requires WellFormed(policy, operation, records, b) && KeyedStep(tables, operation, b.steps[0])
    ensures Follows(StepRunner(tables, operation, records), BatchRunner(tables, operation), b)
  {
    WellFormedHasOneShape(policy, operation, records, b);
    forall db: Database
      ensures BatchRunner(tables, operation)(db, b) ==
              if KeysDistinctIn(b) then Fold(StepRunner(tables, operation, records), db, b.steps, |b.steps|) else None
    {
      BatchIsStepByStep(db, tables, operation, records, b);
    }
  }

  /** The batches that the generator makes of a plan leave exactly what the selected steps
      leave when each is written alone in plan order; the one way to lose that is an upsert
      that meets a key twice. */
  lemma {:induction false} BatchesWriteLikeSteps(db: Database, policy: Policy, tables: map<string, Table>,
                                                 operation: Operation, records: map<string, Record>,
                                                 chosen: Option<set<string>>, steps: seq<Step>, batches: seq<Batch>)
    requires Judged(operation, tables, records, policy, chosen, steps)
    requires Emitted(policy, operation, records, batches) && AllSteps(batches) == Selected(steps, chosen)
    ensures RunBatches(db, tables, operation, batches) ==
            if UpsertKeysDistinct(batches) then RunSteps(db, tables, operation, records, Selected(steps, chosen)) else None
  {
    var run, runBatch := StepRunner(tables, operation, records), BatchRunner(tables, operation);
    forall i | 0 <= i < |batches|
      ensures Follows(run, runBatch, batches[i])
    {
      FirstStepIsListed(batches, i);
      SelectedIsKeyed(operation, tables, records, policy, chosen, steps, batches[i].steps[0]);
      EmittedFollows(policy, tables, operation, records, batches[i]);
    }
    BatchesFollowSteps(run, runBatch, db, batches, |batches|);
    assert batches[..|batches|] == batches;
  }
}
