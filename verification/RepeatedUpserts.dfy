/** When batching loses against writing row by row: two upserting steps of one identity that
    share a statement, which plan, records and budgets decide. */
module RepeatedUpserts {
  import opened Wrappers
  import opened LoadPlans
  import opened WriteBatches
  import opened BatchSemantics

  ghost predicate HaveRecords(records: map<string, Record>, steps: seq<Step>)
  {
    forall s :: s in steps ==> s.unit in records
  }

  // ---------------------------------------------------------------------------
  // Which steps share a statement
  // ---------------------------------------------------------------------------

  /** The size of the records of the steps from `first` up to, but not including, `n`. */
  function SizeUpTo(records: map<string, Record>, steps: seq<Step>, first: nat, n: nat): nat
    requires first <= n <= |steps| && HaveRecords(records, steps)
    decreases n - first
  {
    if n == first then 0 else SizeUpTo(records, steps, first, n - 1) + records[steps[n - 1].unit].size
  }

  /** Where the statement that writes a step begins: with the step before it as long as there
      is room, else with the step itself. */
  function StartOf(policy: Policy, records: map<string, Record>, steps: seq<Step>, i: nat): (start: nat)
    requires i < |steps| && HaveRecords(records, steps)
    ensures start <= i
  {
    if i == 0 then 0
    else
      var s := StartOf(policy, records, steps, i - 1);
      if Room(policy, steps[s], i - s, SizeUpTo(records, steps, s, i), steps[i], records[steps[i].unit].size) then s else i
  }

  function IdentityOf(records: map<string, Record>, step: Step): Option<seq<Value>>
    requires step.unit in records
  {
    KeyOf(step.identity, RowOf(records[step.unit]))
  }

  /** Two steps give the database the same identity. */
  predicate SameIdentity(records: map<string, Record>, a: Step, b: Step)
    requires a.unit in records && b.unit in records
  {
    IdentityOf(records, a).Some? && IdentityOf(records, a) == IdentityOf(records, b)
  }

  /** Step `i` is written by the statement of the later step `j`, which upserts, under the
      same identity. */
  predicate RepeatedAt(policy: Policy, operation: Operation, records: map<string, Record>, steps: seq<Step>, i: int, j: int)
    requires HaveRecords(records, steps)
  {
    && 0 <= i < j < |steps| && StartOf(policy, records, steps, j) <= i
    && Upserts(operation, steps[j]) && SameIdentity(records, steps[i], steps[j])
  }

  ghost predicate RepeatsInStatement(policy: Policy, operation: Operation, records: map<string, Record>, steps: seq<Step>)
    requires HaveRecords(records, steps)
  {
    exists i, j :: RepeatedAt(policy, operation, records, steps, i, j)
  }

  // ---------------------------------------------------------------------------
  // The batches of the generator and their places
  // ---------------------------------------------------------------------------

  function Offset(batches: seq<Batch>, k: nat): nat
    requires k <= |batches|
  {
    if k == 0 then 0 else Offset(batches, k - 1) + |batches[k - 1].steps|
  }

  lemma {:induction false} OffsetOfPrefix(batches: seq<Batch>, n: nat, k: nat)
    requires k <= n <= |batches|
    ensures Offset(batches[..n], k) == Offset(batches, k)
  {
    if k > 0 {
      OffsetOfPrefix(batches, n, k - 1);
    }
  }

  lemma {:induction false} LengthIsOffset(batches: seq<Batch>)
    ensures |AllSteps(batches)| == Offset(batches, |batches|)
    decreases |batches|
  {
    if |batches| > 0 {
      var front := batches[..|batches| - 1];
      LengthIsOffset(front);
      OffsetOfPrefix(batches, |front|, |front|);
    }
  }

  /** The steps of a batch stand in the sequence from `offset` on. */
  ghost predicate StandsAt(steps: seq<Step>, b: Batch, offset: nat)
  {
    offset + |b.steps| <= |steps| && forall n :: 0 <= n < |b.steps| ==> steps[offset + n] == b.steps[n]
  }

  lemma {:induction false} StandsStill(steps: seq<Step>, more: seq<Step>, b: Batch, offset: nat)
    requires StandsAt(steps, b, offset)
    ensures StandsAt(steps + more, b, offset)
  {
  }

  lemma {:induction false} StandsLast(steps: seq<Step>, b: Batch)
    ensures StandsAt(steps + b.steps, b, |steps|)
  {
  }

  lemma {:induction false} BatchStands(batches: seq<Batch>, k: nat)
    requires k < |batches|
    ensures StandsAt(AllSteps(batches), batches[k], Offset(batches, k))
    decreases |batches|
  {
    var front, last := batches[..|batches| - 1], batches[|batches| - 1];
    assert AllSteps(batches) == AllSteps(front) + last.steps;
    OffsetOfPrefix(batches, |front|, k);
    if k < |front| {
      BatchStands(front, k);
      StandsStill(AllSteps(front), last.steps, front[k], Offset(front, k));
    } else {
      LengthIsOffset(front);
      StandsLast(AllSteps(front), last);
    }
  }

  lemma {:induction false} BatchOfStep(batches: seq<Batch>, p: nat, n: nat) returns (k: nat)
    requires n <= |batches| && p < Offset(batches, n)
    ensures k < n && Offset(batches, k) <= p < Offset(batches, k) + |batches[k].steps|
  {
    if p < Offset(batches, n - 1) {
      k := BatchOfStep(batches, p, n - 1);
    } else {
      k := n - 1;
    }
  }

  /** A batch with its records in its place among the steps. */
  ghost predicate InPlace(policy: Policy, operation: Operation, records: map<string, Record>, steps: seq<Step>, b: Batch,
                         offset: nat)
  {
    HaveRecords(records, steps) && WellFormed(policy, operation, records, b) && StandsAt(steps, b, offset)
  }

  lemma {:induction false} SizesAgree(policy: Policy, operation: Operation, records: map<string, Record>, steps: seq<Step>,
                                      b: Batch, offset: nat, n: nat)
    requires InPlace(policy, operation, records, steps, b, offset) && n <= |b.steps|
    ensures SizeUpTo(records, steps, offset, offset + n) == BytesUpTo(b.records, n)
  {
    if n > 0 {
      SizesAgree(policy, operation, records, steps, b, offset, n - 1);
      assert steps[offset + (n - 1)] == b.steps[n - 1];
    }
  }

  lemma {:induction false} BytesGrow(records: seq<Record>, n: nat)
    requires n <= |records|
    ensures BytesUpTo(records, n) <= TotalBytes(records)
    decreases |records| - n
  {
    if n < |records| {
      BytesGrow(records, n + 1);
    }
  }

  lemma {:induction false} FewerRowsFit(rows: nat, more: nat, columns: nat, limit: nat)
    requires rows <= more && more * columns + 1 <= limit
    ensures rows * columns + 1 <= limit
  {
    assert rows * columns <= more * columns;
  }

  /** Inside a batch there was room for every further step. */
  lemma {:induction false} RoomInside(policy: Policy, operation: Operation, records: map<string, Record>, steps: seq<Step>,
                                      b: Batch, offset: nat, n: nat)
    requires InPlace(policy, operation, records, steps, b, offset) && 0 < n < |b.steps|
    ensures Room(policy, steps[offset], n, SizeUpTo(records, steps, offset, offset + n), steps[offset + n],
                 records[steps[offset + n].unit].size)
  {
    assert steps[offset + 0] == b.steps[0] && steps[offset + n] == b.steps[n];
    SizesAgree(policy, operation, records, steps, b, offset, n);
    BytesGrow(b.records, n + 1);
    FewerRowsFit(n + 1, |b.steps|, |b.steps[0].columns|, policy.maxParameters);
    assert SameShape(b.steps[n], b.steps[0]);
  }

  lemma {:induction false} StartWithin(policy: Policy, operation: Operation, records: map<string, Record>, steps: seq<Step>,
                                       b: Batch, offset: nat, n: nat)
    requires InPlace(policy, operation, records, steps, b, offset) && n < |b.steps|
    requires StartOf(policy, records, steps, offset) == offset
    ensures StartOf(policy, records, steps, offset + n) == offset
  {
    if n > 0 {
      StartWithin(policy, operation, records, steps, b, offset, n - 1);
      RoomInside(policy, operation, records, steps, b, offset, n);
    }
  }

  /** No room was left where the next batch begins. */
  lemma {:induction false} StartNext(policy: Policy, operation: Operation, records: map<string, Record>, steps: seq<Step>,
                                     b: Batch, next: Batch, offset: nat, end: nat)
    requires InPlace(policy, operation, records, steps, b, offset) && end == offset + |b.steps|
    requires InPlace(policy, operation, records, steps, next, end) && NoRoomFor(policy, b, next)
    requires StartOf(policy, records, steps, offset) == offset
    ensures StartOf(policy, records, steps, end) == end
  {
    StartWithin(policy, operation, records, steps, b, offset, |b.steps| - 1);
    SizesAgree(policy, operation, records, steps, b, offset, |b.steps|);
    assert steps[offset + 0] == b.steps[0] && steps[end + 0] == next.steps[0];
  }

  ghost predicate PlacedUpTo(policy: Policy, operation: Operation, records: map<string, Record>, steps: seq<Step>,
                             batches: seq<Batch>, n: nat)
    requires n <= |batches|
  {
    n > 0 ==> PlacedUpTo(policy, operation, records, steps, batches, n - 1) &&
              InPlace(policy, operation, records, steps, batches[n - 1], Offset(batches, n - 1))
  }

  lemma {:induction false} EmittedPlaced(policy: Policy, operation: Operation, records: map<string, Record>,
                                         batches: seq<Batch>, n: nat)
    requires Emitted(policy, operation, records, batches) && HaveRecords(records, AllSteps(batches)) && n <= |batches|
    ensures PlacedUpTo(policy, operation, records, AllSteps(batches), batches, n)
  {
    if n > 0 {
      EmittedPlaced(policy, operation, records, batches, n - 1);
      BatchStands(batches, n - 1);
      assert WellFormed(policy, operation, records, batches[n - 1]);
    }
  }

  lemma {:induction false} NoRoomBetween(policy: Policy, batches: seq<Batch>, k: nat)
    requires Greedy(policy, batches) && 0 < k < |batches|
    ensures NoRoomFor(policy, batches[k - 1], batches[k])
  {
  }

  lemma {:induction false} PlacedStarts(policy: Policy, operation: Operation, records: map<string, Record>, steps: seq<Step>,
                                        batches: seq<Batch>, k: nat)
    requires k < |batches| && PlacedUpTo(policy, operation, records, steps, batches, k + 1) && Greedy(policy, batches)
    ensures InPlace(policy, operation, records, steps, batches[k], Offset(batches, k))
    ensures StartOf(policy, records, steps, Offset(batches, k)) == Offset(batches, k)
  {
    if k > 0 {
      PlacedStarts(policy, operation, records, steps, batches, k - 1);
      NoRoomBetween(policy, batches, k);
      StartNext(policy, operation, records, steps, batches[k - 1], batches[k], Offset(batches, k - 1),
                Offset(batches, k));
    }
  }

  lemma {:induction false} BatchStarts(policy: Policy, operation: Operation, records: map<string, Record>,
                                       batches: seq<Batch>, k: nat)
    requires Emitted(policy, operation, records, batches) && HaveRecords(records, AllSteps(batches)) && k < |batches|
    ensures InPlace(policy, operation, records, AllSteps(batches), batches[k], Offset(batches, k))
    ensures StartOf(policy, records, AllSteps(batches), Offset(batches, k)) == Offset(batches, k)
  {
    EmittedPlaced(policy, operation, records, batches, k + 1);
    PlacedStarts(policy, operation, records, AllSteps(batches), batches, k);
  }

  // ---------------------------------------------------------------------------
  // The exact condition
  // ---------------------------------------------------------------------------

  lemma {:induction false} RowOfPlaced(policy: Policy, operation: Operation, records: map<string, Record>, steps: seq<Step>,
                                       b: Batch, offset: nat, n: nat)
    requires InPlace(policy, operation, records, steps, b, offset) && n < |b.steps|
    ensures steps[offset + n] == b.steps[n] && b.steps[n].identity == b.steps[0].identity
    ensures IdentityOf(records, steps[offset + n]) == KeyOf(b.steps[0].identity, RowsOf(b.records)[n])
    ensures Upserts(operation, steps[offset + n]) <==> b.upserts
  {
    assert SameShape(b.steps[n], b.steps[0]);
  }

  lemma {:induction false} RepeatInBatch(policy: Policy, operation: Operation, records: map<string, Record>,
                                         batches: seq<Batch>, k: nat)
    requires Emitted(policy, operation, records, batches) && HaveRecords(records, AllSteps(batches))
    requires k < |batches| && !KeysDistinctIn(batches[k])
    ensures RepeatsInStatement(policy, operation, records, AllSteps(batches))
  {
    var steps, b, offset := AllSteps(batches), batches[k], Offset(batches, k);
    BatchStarts(policy, operation, records, batches, k);
    var i, j :| 0 <= i < j < |b.records| && SameKey(b.steps[0].identity, RowsOf(b.records)[i], RowsOf(b.records)[j]);
    RowOfPlaced(policy, operation, records, steps, b, offset, i);
    RowOfPlaced(policy, operation, records, steps, b, offset, j);
    StartWithin(policy, operation, records, steps, b, offset, j);
    assert RepeatedAt(policy, operation, records, steps, offset + i, offset + j);
  }

  lemma {:induction false} RepeatInPlaced(policy: Policy, operation: Operation, records: map<string, Record>,
                                          steps: seq<Step>, b: Batch, offset: nat, i: nat, j: nat)
    requires InPlace(policy, operation, records, steps, b, offset) && i < j < |b.steps|
    requires Upserts(operation, steps[offset + j]) && SameIdentity(records, steps[offset + i], steps[offset + j])
    ensures !KeysDistinctIn(b)
  {
    RowOfPlaced(policy, operation, records, steps, b, offset, i);
    RowOfPlaced(policy, operation, records, steps, b, offset, j);
    assert SameKey(b.steps[0].identity, RowsOf(b.records)[i], RowsOf(b.records)[j]);
  }

  /** A repetition that ends in a batch lies in it altogether. */
  lemma {:induction false} RepeatLiesInside(policy: Policy, operation: Operation, records: map<string, Record>,
                                            steps: seq<Step>, b: Batch, offset: nat, i: nat, j: nat)
    requires InPlace(policy, operation, records, steps, b, offset) && StartOf(policy, records, steps, offset) == offset
    requires offset <= j < offset + |b.steps| && RepeatedAt(policy, operation, records, steps, i, j)
    ensures !KeysDistinctIn(b)
  {
    StartWithin(policy, operation, records, steps, b, offset, j - offset);
    assert offset + (i - offset) == i && offset + (j - offset) == j;
    RepeatInPlaced(policy, operation, records, steps, b, offset, i - offset, j - offset);
  }

  lemma {:induction false} RepeatedPairInBatch(policy: Policy, operation: Operation, records: map<string, Record>,
                                               batches: seq<Batch>, i: nat, j: nat) returns (k: nat)
    requires Emitted(policy, operation, records, batches) && HaveRecords(records, AllSteps(batches))
    requires RepeatedAt(policy, operation, records, AllSteps(batches), i, j)
    ensures k < |batches| && !KeysDistinctIn(batches[k])
  {
    LengthIsOffset(batches);
    k := BatchOfStep(batches, j, |batches|);
    BatchStarts(policy, operation, records, batches, k);
    RepeatLiesInside(policy, operation, records, AllSteps(batches), batches[k], Offset(batches, k), i, j);
  }

  lemma {:induction false} DistinctUnlessRepeated(policy: Policy, operation: Operation, records: map<string, Record>,
                                                  batches: seq<Batch>)
    requires Emitted(policy, operation, records, batches) && HaveRecords(records, AllSteps(batches))
    ensures UpsertKeysDistinct(batches) <==> !RepeatsInStatement(policy, operation, records, AllSteps(batches))
  {
    if RepeatsInStatement(policy, operation, records, AllSteps(batches)) {
      var i, j :| RepeatedAt(policy, operation, records, AllSteps(batches), i, j);
      var k := RepeatedPairInBatch(policy, operation, records, batches, i, j);
    }
    if !UpsertKeysDistinct(batches) {
      var k :| 0 <= k < |batches| && !KeysDistinctIn(batches[k]);
      RepeatInBatch(policy, operation, records, batches, k);
    }
  }

  lemma {:induction false} SelectedHaveRecords(records: map<string, Record>, steps: seq<Step>, chosen: Option<set<string>>)
    requires HaveRecords(records, steps)
    ensures HaveRecords(records, Selected(steps, chosen))
  {
    forall s | s in Selected(steps, chosen)
      ensures s.unit in records
    {
      SelectedAreSteps(steps, chosen, s);
    }
  }

  /** The batches leave what the selected steps leave one by one, or they fail: exactly when
      two selected steps with one identity share an upserting statement, which can be read off
      the plan, the records and the budgets. */
  lemma {:induction false} BatchesFailOnRepeats(db: Database, policy: Policy, tables: map<string, Table>,
                                                operation: Operation, records: map<string, Record>,
                                                chosen: Option<set<string>>, steps: seq<Step>, batches: seq<Batch>)
    requires Judged(operation, tables, records, policy, chosen, steps)
    requires Emitted(policy, operation, records, batches) && AllSteps(batches) == Selected(steps, chosen)
    ensures HaveRecords(records, Selected(steps, chosen))
    ensures RunBatches(db, tables, operation, batches) ==
            if RepeatsInStatement(policy, operation, records, Selected(steps, chosen)) then None
            else RunSteps(db, tables, operation, records, Selected(steps, chosen))
  {
    SelectedHaveRecords(records, steps, chosen);
    BatchesWriteLikeSteps(db, policy, tables, operation, records, chosen, steps, batches);
    DistinctUnlessRepeated(policy, operation, records, batches);
  }

  /** No two upserting steps of one table look for the same identity. */
  ghost predicate IdentitiesDistinct(operation: Operation, records: map<string, Record>, steps: seq<Step>)
    requires HaveRecords(records, steps)
  {
    forall i, j :: 0 <= i < j < |steps| && Upserts(operation, steps[i]) && Upserts(operation, steps[j]) &&
                   steps[i].table == steps[j].table && steps[i].identity == steps[j].identity ==>
                   !SameIdentity(records, steps[i], steps[j])
  }

  /** With distinct identities the batches agree with the steps under any budgets. */
  lemma {:induction false} DistinctIdentitiesSuffice(db: Database, policy: Policy, tables: map<string, Table>,
                                                     operation: Operation, records: map<string, Record>,
                                                     chosen: Option<set<string>>, steps: seq<Step>, batches: seq<Batch>)
    requires Judged(operation, tables, records, policy, chosen, steps)
    requires Emitted(policy, operation, records, batches) && AllSteps(batches) == Selected(steps, chosen)
    requires HaveRecords(records, Selected(steps, chosen)) && IdentitiesDistinct(operation, records, Selected(steps, chosen))
    ensures RunBatches(db, tables, operation, batches) ==
            RunSteps(db, tables, operation, records, Selected(steps, chosen))
  {
    var selected := Selected(steps, chosen);
    BatchesFailOnRepeats(db, policy, tables, operation, records, chosen, steps, batches);
    if RepeatsInStatement(policy, operation, records, selected) {
      var i, j :| RepeatedAt(policy, operation, records, selected, i, j);
      SharedShape(policy, records, selected, i, j);
    }
  }

  /** Steps of one statement have one shape. */
  lemma {:induction false} SharedShape(policy: Policy, records: map<string, Record>, steps: seq<Step>, i: nat, j: nat)
    requires HaveRecords(records, steps) && i <= j < |steps| && StartOf(policy, records, steps, j) <= i
    ensures SameShape(steps[i], steps[j])
  {
    StartShape(policy, records, steps, i, j);
    StartShape(policy, records, steps, j, j);
  }

  lemma {:induction false} StartShape(policy: Policy, records: map<string, Record>, steps: seq<Step>, i: nat, j: nat)
    requires HaveRecords(records, steps) && i <= j < |steps| && StartOf(policy, records, steps, j) <= i
    ensures SameShape(steps[i], steps[StartOf(policy, records, steps, j)])
    decreases j
  {
    if i < j {
      StartShape(policy, records, steps, i, j - 1);
    }
  }

  // ---------------------------------------------------------------------------
  // A plan that fails
  // ---------------------------------------------------------------------------

  const ACCOUNTS := Table("accounts", [Column("id", false, true), Column("name", false, true)], ["id"], [UniqueKey(true, ["id"])])

  const ROOMY := Policy(10, 100, 1000, false)

  /** Gives the account `id` a name. */
  function Naming(unit: string): Step
  {
    Step(unit, unit, "accounts", ["id", "name"], ["id"], ["name"], [], Insert, {})
  }

  function Named(unit: string, id: Content, name: Content): Record
  {
    Record(unit, "accounts", [Cell("id", Scalar(id)), Cell("name", Scalar(name))], 8)
  }

  function TwoNames(id: Content, first: Content, second: Content): map<string, Record>
  {
    map["a" := Named("a", id, first), "b" := Named("b", id, second)]
  }

  function AccountRow(id: Content, name: Content): RowValues
  {
    map["id" := Scalar(id), "name" := Scalar(name)]
  }

  lemma {:induction false} KeyOfAccount(id: Content, name: Content)
    ensures KeyOf(["id"], AccountRow(id, name)) == Some([Scalar(id)])
  {
    var columns, row := ["id"], AccountRow(id, name);
    assert columns[0] in row && row[columns[0]] == Scalar(id);
    assert KeyOf(columns, row).Some?;
    assert KeyOf(columns, row).value == [Scalar(id)];
  }

  lemma {:induction false} RowOfNamed(unit: string, id: Content, name: Content)
    ensures RowOf(Named(unit, id, name)) == AccountRow(id, name)
  {
    var cells := Named(unit, id, name).cells;
    assert ValuesUpTo(cells, 0) == map[];
    assert ValuesUpTo(cells, 1) == map["id" := Scalar(id)];
  }

  /** One by one the second name replaces the first; in one statement the database refuses to
      touch the account twice. */
  lemma {:induction false} RenamedTwiceFails(id: Content, first: Content, second: Content)
    ensures var records, steps, tables := TwoNames(id, first, second), [Naming("a"), Naming("b")], map["accounts" := ACCOUNTS];
            var batches, db := [Batch(steps, [records["a"], records["b"]], true)], map["accounts" := []];
            && Judged(Upsert, tables, records, ROOMY, None, steps)
            && Emitted(ROOMY, Upsert, records, batches) && AllSteps(batches) == Selected(steps, None) == steps
            && RunSteps(db, tables, Upsert, records, steps) == Some(map["accounts" := [AccountRow(id, second)]])
            && RunBatches(db, tables, Upsert, batches) == None
  {
    var records, steps, tables := TwoNames(id, first, second), [Naming("a"), Naming("b")], map["accounts" := ACCOUNTS];
    var batches := [Batch(steps, [records["a"], records["b"]], true)];
    TwoNamesJudged(id, first, second);
    TwoNamesEmitted(id, first, second);
    TwoNamesOneByOne(id, first, second);
    TwoNamesRepeat(id, first, second);
    BatchesFailOnRepeats(map["accounts" := []], ROOMY, tables, Upsert, records, None, steps, batches);
  }

  lemma {:induction false} TwoNamesSelected()
    ensures Selected([Naming("a"), Naming("b")], None) == [Naming("a"), Naming("b")]
  {
    var steps := [Naming("a"), Naming("b")];
    assert steps[..1] == [Naming("a")] && steps[..1][..0] == [];
    assert Selected([Naming("a")], None) == [Naming("a")];
  }

  lemma {:induction false} NamingIsTaken(id: Content, first: Content, second: Content, unit: string)
    requires unit == "a" || unit == "b"
    ensures Judge(Upsert, map["accounts" := ACCOUNTS], TwoNames(id, first, second), ROOMY, None, Naming(unit)).Take?
  {
    var step, record := Naming(unit), TwoNames(id, first, second)[unit];
    assert Fields(record.cells) == step.columns;
    assert step.columns[1..] == ["name"] && ["name"][1..] == [];
    assert Outside(["name"], ["id"], ["id"]) == ["name"];
    assert Mutable(ACCOUNTS, step) == ["name"];
    assert WritableColumn(ACCOUNTS, "id") by {
      assert ACCOUNTS.columns[0] in ACCOUNTS.columns;
    }
    assert WritableColumn(ACCOUNTS, "name") by {
      assert ACCOUNTS.columns[1] in ACCOUNTS.columns;
    }
    assert UniqueKey(true, ["id"]) in ACCOUNTS.uniqueKeys;
  }

  lemma {:induction false} TwoNamesJudged(id: Content, first: Content, second: Content)
    ensures Judged(Upsert, map["accounts" := ACCOUNTS], TwoNames(id, first, second), ROOMY, None, [Naming("a"), Naming("b")])
  {
    NamingIsTaken(id, first, second, "a");
    NamingIsTaken(id, first, second, "b");
  }

  lemma {:induction false} TwoNamesEmitted(id: Content, first: Content, second: Content)
    ensures var records, steps := TwoNames(id, first, second), [Naming("a"), Naming("b")];
            var batches := [Batch(steps, [records["a"], records["b"]], true)];
            Emitted(ROOMY, Upsert, records, batches) && AllSteps(batches) == Selected(steps, None) == steps
  {
    var records, steps := TwoNames(id, first, second), [Naming("a"), Naming("b")];
    var rows := [records["a"], records["b"]];
    var batches := [Batch(steps, rows, true)];
    assert BytesUpTo(rows, 0) == 0;
    assert BytesUpTo(rows, 1) == 8;
    assert BytesUpTo(rows, 2) == 16;
    assert WellFormed(ROOMY, Upsert, records, batches[0]);
    assert batches[..0] == [];
    TwoNamesSelected();
  }

  lemma {:induction false} TwoNamesRepeat(id: Content, first: Content, second: Content)
    ensures var records, steps := TwoNames(id, first, second), [Naming("a"), Naming("b")];
            HaveRecords(records, steps) && RepeatsInStatement(ROOMY, Upsert, records, steps)
  {
    var records, steps := TwoNames(id, first, second), [Naming("a"), Naming("b")];
    assert HaveRecords(records, steps);
    RowOfNamed("a", id, first);
    RowOfNamed("b", id, second);
    assert SizeUpTo(records, steps, 0, 1) == 8;
    assert StartOf(ROOMY, records, steps, 0) == 0;
    assert StartOf(ROOMY, records, steps, 1) == 0;
    KeyOfAccount(id, first);
    KeyOfAccount(id, second);
    assert RepeatedAt(ROOMY, Upsert, records, steps, 0, 1);
  }

  lemma {:induction false} TwoNamesOneByOne(id: Content, first: Content, second: Content)
    ensures RunSteps(map["accounts" := []], map["accounts" := ACCOUNTS], Upsert, TwoNames(id, first, second),
                     [Naming("a"), Naming("b")]) == Some(map["accounts" := [AccountRow(id, second)]])
  {
    var records, steps, tables := TwoNames(id, first, second), [Naming("a"), Naming("b")], map["accounts" := ACCOUNTS];
    var empty: Database, one: Database, two: Database :=
      map["accounts" := []], map["accounts" := [AccountRow(id, first)]], map["accounts" := [AccountRow(id, second)]];
    FirstName(id, first, second);
    SecondName(id, first, second);
    var run := StepRunner(tables, Upsert, records);
    assert Fold(run, empty, steps, 0) == Some(empty);
    assert Fold(run, empty, steps, 1) == Some(one);
    assert Fold(run, empty, steps, 2) == Some(two);
  }

  lemma {:induction false} FirstName(id: Content, first: Content, second: Content)
    ensures RunStep(map["accounts" := []], map["accounts" := ACCOUNTS], Upsert, TwoNames(id, first, second), Naming("a")) ==
            Some(map["accounts" := [AccountRow(id, first)]])
  {
    var db: Database, row := map["accounts" := []], AccountRow(id, first);
    var s := ShapeOf(ACCOUNTS, Upsert, Naming("a"));
    RowOfNamed("a", id, first);
    assert Placed(s, [], Target(s, [], row), row) == [row];
    assert WriteOne(s, [], row) == Some([row]);
    assert db["accounts" := [row]] == map["accounts" := [row]];
  }

  lemma {:induction false} SecondName(id: Content, first: Content, second: Content)
    ensures RunStep(map["accounts" := [AccountRow(id, first)]], map["accounts" := ACCOUNTS], Upsert, TwoNames(id, first, second),
                    Naming("b")) == Some(map["accounts" := [AccountRow(id, second)]])
  {
    var before, after := AccountRow(id, first), AccountRow(id, second);
    var db: Database, s := map["accounts" := [before]], ShapeOf(ACCOUNTS, Upsert, Naming("b"));
    RowOfNamed("b", id, second);
    KeyOfAccount(id, first);
    KeyOfAccount(id, second);
    assert TargetUpTo(s, [before], after, 0) == None;
    assert Target(s, [before], after) == Some(0);
    assert Merged(before, after, ["name"]) == after;
    assert Placed(s, [before], Some(0), after) == [after];
    assert WriteOne(s, [before], after) == Some([after]);
    assert db["accounts" := [after]] == map["accounts" := [after]];
  }
}
