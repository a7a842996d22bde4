/** Greedy splitting of an ordered plan into bounded INSERT/UPSERT statements, and the
    equivalence of the batched statements with writing one row at a time. */
module WriteBatches {
  import opened Wrappers
  import opened Collections
  import opened LoadPlans

  datatype Operation = InsertOnly | Upsert

  datatype Column = Column(id: string, generated: bool, writable: bool)

  datatype UniqueKey = UniqueKey(supported: bool, columns: seq<string>)

  datatype Table = Table(id: string, columns: seq<Column>, primaryKey: seq<string>, uniqueKeys: seq<UniqueKey>)

  type Content(==,!new)

  datatype Value = Null | Scalar(content: Content)

  datatype Cell = Cell(field: string, value: Value)

  /** One projected record; `size` is the length of its canonical encoding in bytes. */
  datatype Record = Record(id: string, collection: string, cells: seq<Cell>, size: nat)

  datatype Policy = Policy(batchSize: nat, maxParameters: nat, maxBatchBytes: nat, quarantines: bool)

  predicate PolicyValid(p: Policy)
  {
    p.batchSize >= 1 && p.maxParameters >= 1 && p.maxBatchBytes >= 1
  }

  /** One statement: its steps, their records, and whether it updates on conflict. */
  datatype Batch = Batch(steps: seq<Step>, records: seq<Record>, upserts: bool)

  function Fields(cells: seq<Cell>): seq<string>
  {
    seq(|cells|, i requires 0 <= i < |cells| => cells[i].field)
  }

  // ---------------------------------------------------------------------------
  // The verdict on one step
  // ---------------------------------------------------------------------------

  datatype Verdict = PassOver | Take | Refuse(code: string)

  predicate WritableColumn(table: Table, id: string)
  {
    exists c :: c in table.columns && c.id == id && !c.generated && c.writable
  }

  function Mutable(table: Table, step: Step): seq<string>
  {
    Outside(step.columns, step.identity, table.primaryKey)
  }

  function Outside(columns: seq<string>, identity: seq<string>, primaryKey: seq<string>): seq<string>
  {
    if |columns| == 0 then []
    else
      var rest := Outside(columns[1..], identity, primaryKey);
      if columns[0] !in identity && columns[0] !in primaryKey then [columns[0]] + rest else rest
  }

  function ColumnsRefusal(table: Table, step: Step, operation: Operation): Option<string>
  {
    if |step.columns| == 0 || exists id :: id in step.columns && !WritableColumn(table, id) then
      Some("LOAD_COLUMN_NOT_WRITABLE")
    else if operation == Upsert then
      if !exists k :: k in table.uniqueKeys && k.supported && k.columns == step.identity then
        Some("LOAD_UPSERT_IDENTITY_INVALID")
      else if Mutable(table, step) != step.updates || (step.action.Update? && Mutable(table, step) == []) then
        Some("LOAD_PLAN_INVALID")
      else None
    else None
  }

  function Judge(operation: Operation, tables: map<string, Table>, records: map<string, Record>, policy: Policy,
                 chosen: Option<set<string>>, step: Step): Verdict
    requires step.unit in records
  {
    var row := records[step.unit];
    if chosen.Some? && step.unit !in chosen.value then PassOver
    else if step.table !in tables || row.collection != step.table || Fields(row.cells) != step.columns then
      Refuse("LOAD_PLAN_INVALID")
    else if step.action.Quarantine? then PassOver
    else
      var refusal := ColumnsRefusal(tables[step.table], step, operation);
      if refusal.Some? then Refuse(refusal.value)
      else if step.action.Skip? then PassOver
      else if row.size > policy.maxBatchBytes || |step.columns| + 1 > policy.maxParameters then
        Refuse("SECURITY_LIMIT_EXCEEDED")
      else Take
  }

  /** The record has exactly the cells that the step announces, for a table that is known. */
  predicate Announced(tables: map<string, Table>, row: Record, step: Step)
  {
    && step.table in tables && row.collection == step.table && |row.cells| == |step.columns|
    && forall i :: 0 <= i < |row.cells| ==> row.cells[i].field == step.columns[i]
  }

  /** There are columns, and each is one that the table has, generates not itself and opens to
      the writer. */
  predicate ColumnsWritable(table: Table, step: Step)
  {
    step.columns != [] &&
    forall id :: id in step.columns ==> exists c :: c in table.columns && c.id == id && !c.generated && c.writable
  }

  /** An upsert looks for a supported unique key and updates all columns that are neither part of
      it nor of the primary key; a planned update has something to update. */
  predicate UpsertSound(table: Table, step: Step)
  {
    && IdentityKnown(table, step)
    && step.updates == Mutable(table, step) && (step.action.Update? ==> step.updates != [])
  }

  predicate IdentityKnown(table: Table, step: Step)
  {
    exists k :: k in table.uniqueKeys && k.supported && k.columns == step.identity
  }

  predicate WithinLimits(policy: Policy, row: Record, step: Step)
  {
    row.size <= policy.maxBatchBytes && |step.columns| < policy.maxParameters
  }

  lemma {:induction false} MutableColumns(columns: seq<string>, identity: seq<string>, primaryKey: seq<string>)
    ensures forall id :: id in Outside(columns, identity, primaryKey) <==> id in columns && id !in identity && id !in primaryKey
    decreases |columns|
  {
    if |columns| > 0 {
      MutableColumns(columns[1..], identity, primaryKey);
      assert columns == [columns[0]] + columns[1..];
    }
  }

  lemma {:induction false} AnnouncedFields(row: Record, step: Step)
    ensures Fields(row.cells) == step.columns <==>
            |row.cells| == |step.columns| && forall i :: 0 <= i < |row.cells| ==> row.cells[i].field == step.columns[i]
  {
    if Fields(row.cells) == step.columns {
      assert forall i :: 0 <= i < |row.cells| ==> Fields(row.cells)[i] == row.cells[i].field;
    }
  }

  /** A row is written exactly when its step asks for it and every check of it passes. */
  lemma {:induction false} TakenExactlyWhenSound(operation: Operation, tables: map<string, Table>, records: map<string, Record>,
                                                 policy: Policy, chosen: Option<set<string>>, step: Step)
    requires step.unit in records
    ensures Judge(operation, tables, records, policy, chosen, step).Take? <==>
              && (chosen.Some? ==> step.unit in chosen.value) && (step.action.Insert? || step.action.Update?)
              && Announced(tables, records[step.unit], step) && ColumnsWritable(tables[step.table], step)
              && (operation.Upsert? ==> UpsertSound(tables[step.table], step))
              && WithinLimits(policy, records[step.unit], step)
  {
    AnnouncedFields(records[step.unit], step);
  }

  /** What is wrong with a step that is refused, by the code. */
  lemma {:induction false} RefusalsTellWhy(operation: Operation, tables: map<string, Table>, records: map<string, Record>,
                                           policy: Policy, chosen: Option<set<string>>, step: Step, code: string)
    requires step.unit in records && Judge(operation, tables, records, policy, chosen, step) == Refuse(code)
    ensures chosen.Some? ==> step.unit in chosen.value
    ensures match code
            case "LOAD_PLAN_INVALID" =>
              !Announced(tables, records[step.unit], step)
              || (operation.Upsert? && !step.action.Quarantine? && IdentityKnown(tables[step.table], step) && !UpsertSound(tables[step.table], step))
            case "LOAD_COLUMN_NOT_WRITABLE" =>
              !step.action.Quarantine? && step.table in tables && !ColumnsWritable(tables[step.table], step)
            case "LOAD_UPSERT_IDENTITY_INVALID" =>
              operation.Upsert? && !step.action.Quarantine? && step.table in tables && !IdentityKnown(tables[step.table], step)
            case "SECURITY_LIMIT_EXCEEDED" =>
              (step.action.Insert? || step.action.Update?) && !WithinLimits(policy, records[step.unit], step)
            case _ => false
  {
    AnnouncedFields(records[step.unit], step);
  }

  // ---------------------------------------------------------------------------
  // Batches
  // ---------------------------------------------------------------------------

  predicate SameShape(a: Step, b: Step)
  {
    a.table == b.table && a.columns == b.columns && a.identity == b.identity && a.updates == b.updates
  }

  function BytesUpTo(records: seq<Record>, n: nat): nat
    requires n <= |records|
  {
    if n == 0 then 0 else BytesUpTo(records, n - 1) + records[n - 1].size
  }

  function TotalBytes(records: seq<Record>): nat
  {
    BytesUpTo(records, |records|)
  }

  lemma {:induction false} BytesOfPrefix(records: seq<Record>, more: seq<Record>, n: nat)
    requires n <= |records|
    ensures BytesUpTo(records + more, n) == BytesUpTo(records, n)
  {
    if n > 0 {
      BytesOfPrefix(records, more, n - 1);
    }
  }

  lemma {:induction false} TotalBytesAppend(records: seq<Record>, record: Record)
    ensures TotalBytes(records + [record]) == TotalBytes(records) + record.size
  {
    BytesOfPrefix(records, [record], |records|);
  }

  /** Room for one more row of the same shape within all three budgets. */
  predicate Room(policy: Policy, first: Step, rows: nat, bytes: nat, step: Step, size: nat)
  {
    && SameShape(step, first)
    && rows < policy.batchSize
    && (rows + 1) * |step.columns| + 1 <= policy.maxParameters
    && bytes + size <= policy.maxBatchBytes
  }

  predicate Fits(policy: Policy, b: Batch, step: Step, record: Record)
    requires |b.steps| > 0
  {
    Room(policy, b.steps[0], |b.steps|, TotalBytes(b.records), step, record.size)
  }

  ghost predicate WellFormed(policy: Policy, operation: Operation, records: map<string, Record>, b: Batch)
  {
    && 0 < |b.steps| == |b.records| <= policy.batchSize
    && (forall i :: 0 <= i < |b.steps| ==> SameShape(b.steps[i], b.steps[0]) && Writes(b.steps[i]))
    && (forall i :: 0 <= i < |b.steps| ==> b.steps[i].unit in records && b.records[i] == records[b.steps[i].unit])
    && |b.steps| * |b.steps[0].columns| + 1 <= policy.maxParameters
    && TotalBytes(b.records) <= policy.maxBatchBytes
    && b.upserts == (operation == Upsert && b.steps[0].updates != [])
  }

  ghost predicate NoRoomFor(policy: Policy, b: Batch, next: Batch)
  {
    |b.steps| > 0 && |next.steps| > 0 && |next.records| > 0 ==>
      || !SameShape(next.steps[0], b.steps[0])
      || |b.steps| + 1 > policy.batchSize
      || (|b.steps| + 1) * |b.steps[0].columns| + 1 > policy.maxParameters
      || TotalBytes(b.records) + next.records[0].size > policy.maxBatchBytes
  }

  /** The next batch starts only where the previous one had no room left. */
  ghost predicate Greedy(policy: Policy, batches: seq<Batch>)
  {
    forall i, j :: 0 <= i && j == i + 1 && j < |batches| ==> NoRoomFor(policy, batches[i], batches[j])
  }

  function AllSteps(batches: seq<Batch>): seq<Step>
  {
    if |batches| == 0 then [] else AllSteps(batches[..|batches| - 1]) + batches[|batches| - 1].steps
  }

  /** The chosen steps that insert or update, in plan order. */
  function Selected(steps: seq<Step>, chosen: Option<set<string>>): seq<Step>
  {
    if |steps| == 0 then []
    else
      var front, last := Selected(steps[..|steps| - 1], chosen), steps[|steps| - 1];
      if Writes(last) && (chosen.Some? ==> last.unit in chosen.value) then front + [last] else front
  }

  ghost predicate Admissible(operation: Operation, tables: map<string, Table>, records: map<string, Record>,
                             policy: Policy,
                             chosen: Option<set<string>>, steps: seq<Step>)
    requires forall s :: s in steps ==> s.unit in records
  {
    forall i :: 0 <= i < |steps| ==> !Judge(operation, tables, records, policy, chosen, steps[i]).Refuse?
  }

  function Single(operation: Operation, step: Step, record: Record): Batch
  {
    Batch([step], [record], operation == Upsert && step.updates != [])
  }

  function Extended(b: Batch, step: Step, record: Record): Batch
  {
    b.(steps := b.steps + [step], records := b.records + [record])
  }

  lemma {:induction false} SingleIsWellFormed(policy: Policy, operation: Operation, records: map<string, Record>,
                                              step: Step)
    requires PolicyValid(policy) && step.unit in records && Writes(step)
    requires records[step.unit].size <= policy.maxBatchBytes && |step.columns| + 1 <= policy.maxParameters
    ensures WellFormed(policy, operation, records, Single(operation, step, records[step.unit]))
  {
    var record := records[step.unit];
    assert BytesUpTo([record], 1) == BytesUpTo([record], 0) + record.size;
  }

  lemma {:induction false} ExtendedIsWellFormed(policy: Policy, operation: Operation, records: map<string, Record>,
                                                b: Batch, step: Step)
    requires WellFormed(policy, operation, records, b) && step.unit in records && Writes(step)
    requires Fits(policy, b, step, records[step.unit])
    ensures WellFormed(policy, operation, records, Extended(b, step, records[step.unit]))
  {
    var record := records[step.unit];
    TotalBytesAppend(b.records, record);
  }

  ghost predicate Emitted(policy: Policy, operation: Operation, records: map<string, Record>, batches: seq<Batch>)
  {
    && (forall i :: 0 <= i < |batches| ==> WellFormed(policy, operation, records, batches[i]))
    && Greedy(policy, batches)
  }

  lemma {:induction false} OpenBatch(policy: Policy, operation: Operation, records: map<string, Record>,
                                     batches: seq<Batch>, step: Step)
    requires Emitted(policy, operation, records, batches) && step.unit in records
    requires WellFormed(policy, operation, records, Single(operation, step, records[step.unit]))
    requires |batches| > 0 ==> !Fits(policy, batches[|batches| - 1], step, records[step.unit])
    ensures var more := batches + [Single(operation, step, records[step.unit])];
            Emitted(policy, operation, records, more) && AllSteps(more) == AllSteps(batches) + [step]
  {
    var more := batches + [Single(operation, step, records[step.unit])];
    assert more[..|batches|] == batches;
    forall i, j | 0 <= i && j == i + 1 && j < |more|
      ensures NoRoomFor(policy, more[i], more[j])
    {
      if j < |batches| {
        assert NoRoomFor(policy, batches[i], batches[j]);
      } else {
        LastHasNoRoom(policy, operation, batches[i], step, records[step.unit]);
      }
    }
  }

  lemma {:induction false} LastHasNoRoom(policy: Policy, operation: Operation, b: Batch, step: Step, record: Record)
    requires |b.steps| > 0 && !Fits(policy, b, step, record)
    ensures NoRoomFor(policy, b, Single(operation, step, record))
  {
  }

  lemma {:induction false} SameFirstRow(policy: Policy, before: Batch, b: Batch, longer: Batch)
    requires NoRoomFor(policy, before, b) && b.steps <= longer.steps && b.records <= longer.records
    requires |b.steps| > 0 && |b.records| > 0
    ensures NoRoomFor(policy, before, longer)
  {
  }

  lemma {:induction false} ExtendBatch(policy: Policy, operation: Operation, records: map<string, Record>,
                                       batches: seq<Batch>, b: Batch, step: Step)
    requires Emitted(policy, operation, records, batches + [b]) && step.unit in records
    requires WellFormed(policy, operation, records, Extended(b, step, records[step.unit]))
    ensures var more := batches + [Extended(b, step, records[step.unit])];
            Emitted(policy, operation, records, more) && AllSteps(more) == AllSteps(batches + [b]) + [step]
  {
    var earlier, more := batches + [b], batches + [Extended(b, step, records[step.unit])];
    assert earlier[|batches|] == b && WellFormed(policy, operation, records, b);
    assert more[..|batches|] == batches && earlier[..|batches|] == batches;
    forall i, j | 0 <= i && j == i + 1 && j < |more|
      ensures NoRoomFor(policy, more[i], more[j])
    {
      assert NoRoomFor(policy, earlier[i], earlier[j]) && more[i] == earlier[i];
      if j < |batches| {
        assert more[j] == earlier[j];
      } else {
        SameFirstRow(policy, more[i], b, Extended(b, step, records[step.unit]));
      }
    }
    forall i | 0 <= i < |more|
      ensures WellFormed(policy, operation, records, more[i])
    {
      if i < |batches| {
        assert more[i] == earlier[i];
      }
    }
  }

  /** The refusal that stopped the generator came from the first offending step. */
  ghost predicate StoppedAt(operation: Operation, tables: map<string, Table>, records: map<string, Record>,
                            policy: Policy,
                            chosen: Option<set<string>>, steps: seq<Step>, code: string, emitted: seq<Step>, i: int)
    requires forall s :: s in steps ==> s.unit in records
  {
    && 0 <= i < |steps|
    && Judge(operation, tables, records, policy, chosen, steps[i]) == Refuse(code)
    && Admissible(operation, tables, records, policy, chosen, steps[..i])
    && emitted <= Selected(steps[..i], chosen)
  }

  /** The rows collected for the statement that is being put together. */
  function Collected(operation: Operation, first: Option<Step>, steps: seq<Step>, pending: seq<Record>): seq<Batch>
  {
    if first.Some? then [Batch(steps, pending, operation == Upsert && first.value.updates != [])] else []
  }

  /** The local variables of the generator between two steps: `all` are the batches
      already yielded followed by the one that is being collected. */
  ghost predicate Collecting(policy: Policy, operation: Operation, records: map<string, Record>, batches: seq<Batch>,
                             first: Option<Step>, taken: seq<Step>, pending: seq<Record>, byteCount: nat, all: seq<Batch>)
  {
    && Emitted(policy, operation, records, all)
    && all == batches + Collected(operation, first, taken, pending)
    && (if first.Some? then |taken| > 0 && taken[0] == first.value && byteCount == TotalBytes(pending)
        else batches == [] && taken == [] && pending == [] && byteCount == 0)
  }

  /** Yields the open statement if the step does not fit into it. */
  method CloseIfFull(operation: Operation, ghost records: map<string, Record>, policy: Policy, step: Step,
                     record: Record,
                     batches0: seq<Batch>, first0: Option<Step>, taken0: seq<Step>, pending0: seq<Record>, byteCount0: nat,
                     ghost all0: seq<Batch>)
    returns (batches: seq<Batch>, first: Option<Step>, taken: seq<Step>, pending: seq<Record>, byteCount: nat)
    requires step.unit in records && records[step.unit] == record
    requires Collecting(policy, operation, records, batches0, first0, taken0, pending0, byteCount0, all0)
    ensures first.Some? ==> first == first0 && batches == batches0 && taken == taken0 && pending == pending0 && byteCount == byteCount0
    ensures first.Some? ==> Room(policy, first.value, |taken|, byteCount, step, record.size)
    ensures first.None? ==> batches == all0 && taken == [] && pending == [] && byteCount == 0
    ensures first.None? && |all0| > 0 ==> |all0[|all0| - 1].steps| > 0 && !Fits(policy, all0[|all0| - 1], step, record)
  {
    batches, first, taken, pending, byteCount := batches0, first0, taken0, pending0, byteCount0;
    if first.Some? && !Room(policy, first.value, |taken|, byteCount, step, record.size) {
      StatementClosed(policy, operation, records, batches, first, taken, pending, byteCount, all0, step);
      batches := batches + [Batch(taken, pending, operation == Upsert && first.value.updates != [])];
      pending, taken, first, byteCount := [], [], None, 0;
    }
  }

  /** A step that is taken joins the open statement if there is room and else closes it. */
  method TakeStep(operation: Operation, records: map<string, Record>, policy: Policy, step: Step,
                  batches0: seq<Batch>, first0: Option<Step>, taken0: seq<Step>, pending0: seq<Record>, byteCount0: nat,
                  ghost all0: seq<Batch>)
    returns (batches: seq<Batch>, first: Option<Step>, taken: seq<Step>, pending: seq<Record>, byteCount: nat,
             ghost all: seq<Batch>)
    requires PolicyValid(policy) && step.unit in records && Writes(step)
    requires records[step.unit].size <= policy.maxBatchBytes && |step.columns| + 1 <= policy.maxParameters
    requires Collecting(policy, operation, records, batches0, first0, taken0, pending0, byteCount0, all0)
    ensures Collecting(policy, operation, records, batches, first, taken, pending, byteCount, all)
    ensures AllSteps(all) == AllSteps(all0) + [step]
  {
    var record := records[step.unit];
    batches, first, taken, pending, byteCount :=
      CloseIfFull(operation, records, policy, step, record, batches0, first0, taken0, pending0, byteCount0, all0);
    if first.None? {
      all := StartBatch(policy, operation, records, batches, step);
      StatementOpened(policy, operation, records, batches, step, all);
      first, taken, pending, byteCount := Some(step), [step], [record], record.size;
    } else {
      all := GrowBatch(policy, operation, records, batches, Collected(operation, first, taken, pending)[0], step);
      StatementGrown(policy, operation, records, batches, first, taken, pending, byteCount, all0, step, all);
      taken, pending, byteCount := taken + [step], pending + [record], byteCount + record.size;
    }
  }

  lemma {:induction false} StatementClosed(policy: Policy, operation: Operation, records: map<string, Record>,
                                           batches: seq<Batch>,
                                           first: Option<Step>, taken: seq<Step>, pending: seq<Record>, byteCount: nat, all: seq<Batch>, step: Step)
    requires Collecting(policy, operation, records, batches, first, taken, pending, byteCount, all) && step.unit in records
    requires first.Some? && !Room(policy, first.value, |taken|, byteCount, step, records[step.unit].size)
    ensures all == batches + [Batch(taken, pending, operation == Upsert && first.value.updates != [])]
    ensures |all[|all| - 1].steps| > 0 && !Fits(policy, all[|all| - 1], step, records[step.unit])
  {
  }

  lemma {:induction false} StatementOpened(policy: Policy, operation: Operation, records: map<string, Record>,
                                           batches: seq<Batch>, step: Step,
                                           all: seq<Batch>)
    requires step.unit in records && all == batches + [Single(operation, step, records[step.unit])]
    requires Emitted(policy, operation, records, all)
    ensures Collecting(policy, operation, records, batches, Some(step), [step], [records[step.unit]], records[step.unit].size, all)
  {
    var record := records[step.unit];
    assert BytesUpTo([record], 1) == BytesUpTo([record], 0) + record.size;
  }

  lemma {:induction false} StatementGrown(policy: Policy, operation: Operation, records: map<string, Record>,
                                          batches: seq<Batch>,
                                          first: Option<Step>, taken: seq<Step>, pending: seq<Record>, byteCount: nat, before: seq<Batch>,
                                          step: Step, all: seq<Batch>)
    requires Collecting(policy, operation, records, batches, first, taken, pending, byteCount, before)
    requires first.Some? && step.unit in records && Emitted(policy, operation, records, all)
    requires all == batches + [Extended(Collected(operation, first, taken, pending)[0], step, records[step.unit])]
    ensures Collecting(policy, operation, records, batches, first, taken + [step], pending + [records[step.unit]],
                       byteCount + records[step.unit].size, all)
  {
    TotalBytesAppend(pending, records[step.unit]);
  }

  lemma {:induction false} StartBatch(policy: Policy, operation: Operation, records: map<string, Record>,
                                      batches: seq<Batch>, step: Step)
    returns (all: seq<Batch>)
    requires PolicyValid(policy) && step.unit in records && Writes(step)
    requires records[step.unit].size <= policy.maxBatchBytes && |step.columns| + 1 <= policy.maxParameters
    requires Emitted(policy, operation, records, batches)
    requires |batches| > 0 ==> !Fits(policy, batches[|batches| - 1], step, records[step.unit])
    ensures all == batches + [Single(operation, step, records[step.unit])]
    ensures Emitted(policy, operation, records, all) && AllSteps(all) == AllSteps(batches) + [step]
  {
    SingleIsWellFormed(policy, operation, records, step);
    OpenBatch(policy, operation, records, batches, step);
    all := batches + [Single(operation, step, records[step.unit])];
  }

  lemma {:induction false} GrowBatch(policy: Policy, operation: Operation, records: map<string, Record>,
                                     batches: seq<Batch>, b: Batch, step: Step)
    returns (all: seq<Batch>)
    requires PolicyValid(policy) && step.unit in records && Writes(step)
    requires Emitted(policy, operation, records, batches + [b]) && |b.steps| > 0
    requires Fits(policy, b, step, records[step.unit])
    ensures all == batches + [Extended(b, step, records[step.unit])]
    ensures Emitted(policy, operation, records, all) && AllSteps(all) == AllSteps(batches + [b]) + [step]
  {
    assert (batches + [b])[|batches|] == b;
    ExtendedIsWellFormed(policy, operation, records, b, step);
    ExtendBatch(policy, operation, records, batches, b, step);
    all := batches + [Extended(b, step, records[step.unit])];
  }

  lemma {:induction false} YieldedIsEmitted(policy: Policy, operation: Operation, records: map<string, Record>,
                                            batches: seq<Batch>, rest: seq<Batch>)
    requires Emitted(policy, operation, records, batches + rest)
    ensures Emitted(policy, operation, records, batches)
  {
    var all := batches + rest;
    assert forall i :: 0 <= i < |batches| ==> all[i] == batches[i];
  }

  /** The loop over the steps: the batches yielded, and the error raised after them, if any. */
  method EmitBatches(operation: Operation, tables: map<string, Table>, records: map<string, Record>, policy: Policy,
                    steps: seq<Step>, chosen: Option<set<string>>)
    returns (batches: seq<Batch>, error: Option<string>)
    requires PolicyValid(policy) && forall s :: s in steps ==> s.unit in records
    ensures Emitted(policy, operation, records, batches)
    ensures error.None? <==> Admissible(operation, tables, records, policy, chosen, steps)
    ensures error.None? ==> AllSteps(batches) == Selected(steps, chosen)
    ensures error.Some? ==> exists i :: StoppedAt(operation, tables, records, policy, chosen, steps, error.value, AllSteps(batches), i)
  {
    batches := [];
    var pending: seq<Record>, taken: seq<Step>, first: Option<Step>, byteCount: nat := [], [], None, 0;
    ghost var all: seq<Batch> := [];
    for i := 0 to |steps|
      invariant Collecting(policy, operation, records, batches, first, taken, pending, byteCount, all)
      invariant AllSteps(all) == Selected(steps[..i], chosen)
      invariant Admissible(operation, tables, records, policy, chosen, steps[..i])
    {
      var step := steps[i];
      SelectedNext(steps, chosen, i);
      AdmissibleNext(operation, tables, records, policy, chosen, steps, i);
      match Judge(operation, tables, records, policy, chosen, step) {
        case PassOver =>
          TakenWrites(operation, tables, records, policy, chosen, step);
        case Refuse(code) =>
          YieldedIsEmitted(policy, operation, records, batches, Collected(operation, first, taken, pending));
          YieldedIsPrefix(batches, Collected(operation, first, taken, pending));
          assert StoppedAt(operation, tables, records, policy, chosen, steps, code, AllSteps(batches), i);
          return batches, Some(code);
        case Take =>
          TakenWrites(operation, tables, records, policy, chosen, step);
          batches, first, taken, pending, byteCount, all :=
            TakeStep(operation, records, policy, step, batches, first, taken, pending, byteCount, all);
      }
    }
    assert steps[..|steps|] == steps;
    batches := batches + Collected(operation, first, taken, pending);
    error := None;
  }

  /** The plan was made for exactly these records, may run, and knows every chosen unit. */
  predicate Presentable(plan: Plan, records: map<string, Record>, policy: Policy, bound: bool,
                        chosen: Option<set<string>>)
  {
    && plan.blockers == []
    && ((exists s :: s in plan.steps && s.action.Quarantine?) ==> policy.quarantines)
    && bound
    && records.Keys == Elements(Units(plan.steps))
    && |records.Keys| == |plan.steps|
    && (chosen.Some? ==> chosen.value <= records.Keys)
  }

  /** A plan is presentable when nothing blocks it, it is bound to this request, it has exactly one
      step for each record, it excludes steps only if the policy lets it, and every chosen unit is
      one of its own. */
  lemma {:induction false} PresentableMeans(plan: Plan, records: map<string, Record>, policy: Policy, bound: bool,
                                            chosen: Option<set<string>>)
    ensures Presentable(plan, records, policy, bound, chosen) <==>
              && plan.blockers == [] && bound
              && Distinct(Units(plan.steps)) && (forall u :: u in records <==> u in Units(plan.steps))
              && (policy.quarantines || forall s :: s in plan.steps ==> !s.action.Quarantine?)
              && (chosen.Some? ==> forall u :: u in chosen.value ==> u in Units(plan.steps))
  {
    CountDetectsDuplicates(Units(plan.steps));
    assert |Units(plan.steps)| == |plan.steps|;
    if forall u :: u in records <==> u in Units(plan.steps) {
      assert records.Keys == Elements(Units(plan.steps));
    }
  }

  lemma {:induction false} PlannedUnitsHaveRecords(plan: Plan, records: map<string, Record>)
    requires records.Keys == Elements(Units(plan.steps))
    ensures forall s :: s in plan.steps ==> s.unit in records
  {
    forall s | s in plan.steps
      ensures s.unit in records
    {
      var i :| 0 <= i < |plan.steps| && plan.steps[i] == s;
      assert Units(plan.steps)[i] in Elements(Units(plan.steps));
    }
  }

  /** The step whose refusal decides: no earlier one is refused. */
  ghost predicate FirstRefusal(operation: Operation, tables: map<string, Table>, records: map<string, Record>, policy: Policy,
                               chosen: Option<set<string>>, steps: seq<Step>, code: string, i: int)
    requires forall s :: s in steps ==> s.unit in records
  {
    && 0 <= i < |steps| && Judge(operation, tables, records, policy, chosen, steps[i]) == Refuse(code)
    && forall j :: 0 <= j < i ==> !Judge(operation, tables, records, policy, chosen, steps[j]).Refuse?
  }

  /** The plan may not be written for this request, or the first step that is refused is refused
      with this code. */
  ghost predicate RefusesWith(operation: Operation, tables: map<string, Table>, records: map<string, Record>, policy: Policy,
                              plan: Plan, bound: bool, chosen: Option<set<string>>, code: string)
  {
    if !Presentable(plan, records, policy, bound, chosen) then code == "LOAD_PLAN_INVALID"
    else
      && (forall s :: s in plan.steps ==> s.unit in records)
      && exists i :: FirstRefusal(operation, tables, records, policy, chosen, plan.steps, code, i)
  }

  lemma {:induction false} StoppedAtFirstRefusal(operation: Operation, tables: map<string, Table>, records: map<string, Record>,
                                                 policy: Policy, chosen: Option<set<string>>, steps: seq<Step>, code: string,
                                                 emitted: seq<Step>, i: int)
    requires (forall s :: s in steps ==> s.unit in records)
    requires StoppedAt(operation, tables, records, policy, chosen, steps, code, emitted, i)
    ensures FirstRefusal(operation, tables, records, policy, chosen, steps, code, i)
  {
    forall j | 0 <= j < i
      ensures !Judge(operation, tables, records, policy, chosen, steps[j]).Refuse?
    {
      assert steps[..i][j] == steps[j];
    }
  }

  /** The whole generator. `bound` says that the fingerprints of mapping, database and
      projection in the plan are those of this request. */
  method Statements(operation: Operation, tables: map<string, Table>, records: map<string, Record>, policy: Policy,
                    plan: Plan, bound: bool, chosen: Option<set<string>>)
    returns (batches: seq<Batch>, error: Option<string>)
    requires PolicyValid(policy)
    ensures Emitted(policy, operation, records, batches)
    ensures error.None? <==> Presentable(plan, records, policy, bound, chosen) &&
                             Judged(operation, tables, records, policy, chosen, plan.steps)
    ensures error.None? ==> AllSteps(batches) == Selected(plan.steps, chosen)
    ensures error.Some? ==> AllSteps(batches) <= Selected(plan.steps, chosen)
    ensures !Presentable(plan, records, policy, bound, chosen) ==> batches == []
    ensures error.Some? ==> RefusesWith(operation, tables, records, policy, plan, bound, chosen, error.value)
  {
    if !Presentable(plan, records, policy, bound, chosen) {
      return [], Some("LOAD_PLAN_INVALID");
    }
    PlannedUnitsHaveRecords(plan, records);
    batches, error := EmitBatches(operation, tables, records, policy, plan.steps, chosen);
    if error.Some? {
      ghost var i :| StoppedAt(operation, tables, records, policy, chosen, plan.steps, error.value, AllSteps(batches), i);
      SelectedOfPrefix(plan.steps, chosen, i);
      StoppedAtFirstRefusal(operation, tables, records, policy, chosen, plan.steps, error.value, AllSteps(batches), i);
    }
  }

  /** Every step has a record and none of them is refused. */
  ghost predicate Judged(operation: Operation, tables: map<string, Table>, records: map<string, Record>, policy: Policy,
                         chosen: Option<set<string>>, steps: seq<Step>)
  {
    (forall s :: s in steps ==> s.unit in records) && Admissible(operation, tables, records, policy, chosen, steps)
  }

  lemma {:induction false} SelectedOfPrefix(steps: seq<Step>, chosen: Option<set<string>>, i: nat)
    requires i <= |steps|
    ensures Selected(steps[..i], chosen) <= Selected(steps, chosen)
    decreases |steps|
  {
    if i == |steps| {
      assert steps[..i] == steps;
    } else {
      var front := steps[..|steps| - 1];
      SelectedOfPrefix(front, chosen, i);
      assert front[..i] == steps[..i];
    }
  }

  lemma {:induction false} SelectedAreSteps(steps: seq<Step>, chosen: Option<set<string>>, s: Step)
    ensures s in Selected(steps, chosen) <==> s in steps && Writes(s) && (chosen.Some? ==> s.unit in chosen.value)
    decreases |steps|
  {
    if |steps| > 0 {
      SelectedAreSteps(steps[..|steps| - 1], chosen, s);
      assert steps == steps[..|steps| - 1] + [steps[|steps| - 1]];
    }
  }

  ghost predicate DependenciesFirst(steps: seq<Step>)
  {
    forall i, j :: 0 <= i < |steps| && 0 <= j < |steps| && steps[j].unit in steps[i].dependencies ==> j < i
  }

  lemma {:induction false} OrderedPrefix(plan: Plan)
    requires Ordered(plan) && |plan.steps| > 0
    ensures Ordered(plan.(steps := plan.steps[..|plan.steps| - 1]))
  {
    var front := plan.steps[..|plan.steps| - 1];
    assert Units(front) == Units(plan.steps)[..|front|];
    forall i, d | 0 <= i < |front| && d in front[i].dependencies
      ensures EarlierUnit(front, i, d)
    {
      assert EarlierUnit(plan.steps, i, d);
      var j :| 0 <= j < i && plan.steps[j].unit == d;
      assert front[j].unit == d;
    }
  }

  /** The last step of a plan is no dependency of any step. */
  lemma {:induction false} LastIsNoDependency(plan: Plan, s: Step)
    requires Ordered(plan) && s in plan.steps
    ensures plan.steps[|plan.steps| - 1].unit !in s.dependencies
  {
    var i :| 0 <= i < |plan.steps| && plan.steps[i] == s;
    var last := plan.steps[|plan.steps| - 1].unit;
    var units := Units(plan.steps);
    forall j | 0 <= j < i
      ensures plan.steps[j].unit != last
    {
      assert units[j] != units[|units| - 1];
    }
    assert !EarlierUnit(plan.steps, i, last);
  }

  /** Whatever is chosen, the rows are written after the rows they depend on. */
  lemma {:induction false} SelectionWritesDependenciesFirst(plan: Plan, chosen: Option<set<string>>)
    requires Ordered(plan)
    ensures DependenciesFirst(Selected(plan.steps, chosen))
    decreases |plan.steps|
  {
    if |plan.steps| > 0 {
      var front := plan.steps[..|plan.steps| - 1];
      var selected := Selected(plan.steps, chosen);
      OrderedPrefix(plan);
      SelectionWritesDependenciesFirst(plan.(steps := front), chosen);
      forall i | 0 <= i < |selected|
        ensures plan.steps[|plan.steps| - 1].unit !in selected[i].dependencies
      {
        SelectedAreSteps(plan.steps, chosen, selected[i]);
        LastIsNoDependency(plan, selected[i]);
      }
    }
  }

  lemma {:induction false} TakenWrites(operation: Operation, tables: map<string, Table>, records: map<string, Record>,
                                       policy: Policy,
                    chosen: Option<set<string>>, step: Step)
    requires step.unit in records && !Judge(operation, tables, records, policy, chosen, step).Refuse?
    ensures Judge(operation, tables, records, policy, chosen, step).Take? <==>
            Writes(step) && (chosen.Some? ==> step.unit in chosen.value)
    ensures Judge(operation, tables, records, policy, chosen, step).Take? ==>
            records[step.unit].size <= policy.maxBatchBytes && |step.columns| + 1 <= policy.maxParameters
  {
  }

  lemma {:induction false} SelectedNext(steps: seq<Step>, chosen: Option<set<string>>, i: nat)
    requires i < |steps|
    ensures Selected(steps[..i + 1], chosen) ==
            Selected(steps[..i], chosen) + if Writes(steps[i]) && (chosen.Some? ==> steps[i].unit in chosen.value) then [steps[i]] else []
  {
    assert steps[..i + 1][..i] == steps[..i];
  }

  lemma {:induction false} AdmissibleNext(operation: Operation, tables: map<string, Table>, records: map<string,
                                          Record>, policy: Policy,
                       chosen: Option<set<string>>, steps: seq<Step>, i: nat)
    requires i < |steps| && forall s :: s in steps ==> s.unit in records
    requires Admissible(operation, tables, records, policy, chosen, steps[..i])
    ensures Admissible(operation, tables, records, policy, chosen, steps[..i + 1]) <==>
            !Judge(operation, tables, records, policy, chosen, steps[i]).Refuse?
    ensures Judge(operation, tables, records, policy, chosen, steps[i]).Refuse? ==>
            !Admissible(operation, tables, records, policy, chosen, steps)
  {
    var more := steps[..i + 1];
    assert more[i] == steps[i];
    assert forall j :: 0 <= j < i ==> more[j] == steps[..i][j];
  }

  lemma {:induction false} YieldedIsPrefix(batches: seq<Batch>, rest: seq<Batch>)
    requires |rest| <= 1
    ensures AllSteps(batches) <= AllSteps(batches + rest)
  {
    if |rest| == 0 {
      assert batches + rest == batches;
    } else {
      assert (batches + rest)[..|batches|] == batches;
    }
  }
}
