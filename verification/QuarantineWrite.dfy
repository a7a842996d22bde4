/** Writing an execution plan inside the target transaction: all of it, or group by group
    under savepoints with quarantine of the groups the database refuses. */
module QuarantineWrite {
  import opened Wrappers
  import opened Collections
  import opened LoadPlans
  import opened WriteBatches
  import opened WriteHistory
  import G = DependencyGroups

  /** What an awaited database call may bring: success, a wrong RETURNING list, a
      database error under its loader code, or any other interruption (deadline,
      statement text over the byte limit, cancellation, lost connection). */
  datatype Reply = Accepted | Miscounted | SqlError(code: string) | Interrupted(code: string)

  datatype Failure = Sql(code: string) | Other(code: string)

  /** The open transaction: the units whose rows are in effect, how they came to be, and the
      replies that the database is going to give, which nobody knows beforehand. */
  class Transaction {
    var written: seq<string>
    var position: nat
    ghost var history: seq<Effect>
    const replies: nat -> Reply

    constructor (replies: nat -> Reply)
      ensures written == [] && position == 0 && history == [] && this.replies == replies
    {
      this.replies := replies;
      written, position, history := [], 0, [];
    }

    /** The rows in effect are what the history leaves, and each of its effects was possible. */
    ghost predicate Recorded()
      reads this
    {
      written == RowsAfter(history) && Sound(history)
    }

    /** SAVEPOINT and RELEASE change no row. */
    method Await() returns (reply: Reply)
      modifies this`position
      ensures reply == replies(old(position)) && position == old(position) + 1
    {
      reply := replies(position);
      position := position + 1;
    }

    /** One statement; the server refuses it whole or applies it whole. */
    method Execute(batch: Batch) returns (reply: Reply)
      modifies this
      ensures reply == replies(old(position)) && position == old(position) + 1
      ensures written == if reply.Accepted? || reply.Miscounted? then old(written) + Units(batch.steps) else old(written)
      ensures old(Recorded()) && Distinct(old(written) + Units(batch.steps)) ==> Recorded()
    {
      reply := replies(position);
      position := position + 1;
      if reply.Accepted? || reply.Miscounted? {
        OneMore(history, Put(Units(batch.steps)));
        written, history := written + Units(batch.steps), history + [Put(Units(batch.steps))];
      }
    }

    /** ROLLBACK TO SAVEPOINT; if it fails itself, nothing is undone. */
    method RollbackTo(keep: nat) returns (reply: Reply)
      requires keep <= |written|
      modifies this
      ensures reply == replies(old(position)) && position == old(position) + 1
      ensures written == if reply.Accepted? then old(written)[..keep] else old(written)
      ensures old(Recorded()) ==> Recorded()
    {
      reply := replies(position);
      position := position + 1;
      if reply.Accepted? {
        OneMore(history, Undone(keep));
        written, history := written[..keep], history + [Undone(keep)];
      }
    }
  }

  /** The fixed inputs of one load. */
  datatype Load = Load(operation: Operation, tables: map<string, Table>, records: map<string, Record>, policy: Policy,
                       bound: bool, origins: seq<G.Origin>, links: seq<G.RecordLinks>, maxEvaluations: nat)

  function FailureOf(reply: Reply): Failure
    requires !reply.Accepted?
  {
    match reply
    case SqlError(code) => Sql(code)
    case Interrupted(code) => Other(code)
    case Miscounted => Other("LOAD_ROW_COUNT_MISMATCH")
  }

  /** The failure that a reply stands for. */
  ghost predicate Brings(reply: Reply, failure: Failure)
  {
    match reply
    case Accepted => false
    case Miscounted => failure == Other("LOAD_ROW_COUNT_MISMATCH")
    case SqlError(code) => failure == Sql(code)
    case Interrupted(code) => failure == Other(code)
  }

  ghost predicate AllAccepted(replies: nat -> Reply, from: nat, to: nat)
  {
    forall k: nat :: from <= k < to ==> replies(k).Accepted?
  }

  /** The call awaited last was the first to fail, and this is its failure. */
  ghost predicate LastFailed(replies: nat -> Reply, from: nat, to: nat, failure: Failure)
  {
    && from < to && AllAccepted(replies, from, to - 1)
    && Brings(replies(to - 1), failure)
  }

  /** The plan is not one that may be written for this request, or a chosen step is refused. */
  ghost predicate Unwritable(load: Load, plan: Plan, chosen: Option<set<string>>)
  {
    || !Presentable(plan, load.records, load.policy, load.bound, chosen)
    || !Judged(load.operation, load.tables, load.records, load.policy, chosen, plan.steps)
  }

  ghost predicate UnwritableWith(load: Load, plan: Plan, chosen: Option<set<string>>, code: string)
  {
    RefusesWith(load.operation, load.tables, load.records, load.policy, plan, load.bound, chosen, code)
  }

  /** What went wrong between two waits: the last of them failed, or none did and the plan or a
      chosen step is refused. */
  ghost predicate Trouble(load: Load, plan: Plan, chosen: Option<set<string>>, replies: nat -> Reply, from: nat, to: nat,
                          failure: Failure)
  {
    || LastFailed(replies, from, to, failure)
    || (AllAccepted(replies, from, to) && failure.Other? && Unwritable(load, plan, chosen)
        && UnwritableWith(load, plan, chosen, failure.code))
  }

  function Expected(steps: seq<Step>, chosen: Option<set<string>>, n: nat): nat
    requires n <= |steps|
  {
    if n == 0 then 0
    else Expected(steps, chosen, n - 1) +
         (if (steps[n - 1].action.Insert? || steps[n - 1].action.Update?) && (chosen.None? || steps[n - 1].unit in chosen.value) then 1 else 0)
  }

  function StepsUpTo(batches: seq<Batch>, n: nat): seq<Step>
    requires n <= |batches|
  {
    if n == 0 then [] else StepsUpTo(batches, n - 1) + batches[n - 1].steps
  }

  lemma {:induction false} UnitsOfAppend(a: seq<Step>, b: seq<Step>)
    ensures Units(a + b) == Units(a) + Units(b)
  {
  }

  lemma {:induction false} StepsUpToAll(batches: seq<Batch>, n: nat)
    requires n <= |batches|
    ensures StepsUpTo(batches, n) == AllSteps(batches[..n])
  {
    if n > 0 {
      StepsUpToAll(batches, n - 1);
      assert batches[..n][..n - 1] == batches[..n - 1];
    }
  }

  lemma {:induction false} StepsUpToIsPrefix(batches: seq<Batch>, n: nat, m: nat)
    requires n <= m <= |batches|
    ensures StepsUpTo(batches, n) <= StepsUpTo(batches, m)
    decreases m - n
  {
    if n < m {
      StepsUpToIsPrefix(batches, n, m - 1);
    }
  }

  /** The rows once the first statements have been executed. */
  function RowsUpTo(rows: seq<string>, batches: seq<Batch>, n: nat): seq<string>
    requires n <= |batches|
  {
    rows + Units(StepsUpTo(batches, n))
  }

  /** One more statement: its rows join the others, none of them for the second time. */
  lemma {:induction false} NextStatement(rows: seq<string>, batches: seq<Batch>, n: nat)
    requires n < |batches|
    ensures RowsUpTo(rows, batches, n + 1) == RowsUpTo(rows, batches, n) + Units(batches[n].steps)
    ensures Distinct(RowsUpTo(rows, batches, |batches|)) ==> Distinct(RowsUpTo(rows, batches, n + 1))
  {
    UnitsOfAppend(StepsUpTo(batches, n), batches[n].steps);
    StepsUpToIsPrefix(batches, n + 1, |batches|);
    DistinctPrefix(rows, StepsUpTo(batches, |batches|), StepsUpTo(batches, n + 1));
  }

  lemma {:induction false} DistinctPrefix(rows: seq<string>, all: seq<Step>, some: seq<Step>)
    requires some <= all
    ensures Distinct(rows + Units(all)) ==> Distinct(rows + Units(some))
  {
    var long, short := rows + Units(all), rows + Units(some);
    assert forall i :: 0 <= i < |short| ==> short[i] == long[i];
  }

  method ExecuteNext(tx: Transaction, batches: seq<Batch>, i: nat, ghost rows: seq<string>) returns (reply: Reply)
    requires i < |batches| && tx.written == RowsUpTo(rows, batches, i)
    modifies tx
    ensures tx.position == old(tx.position) + 1 && reply == tx.replies(old(tx.position))
    ensures reply.Accepted? ==> tx.written == RowsUpTo(rows, batches, i + 1)
    ensures rows <= tx.written
    ensures old(tx.Recorded()) && Distinct(RowsUpTo(rows, batches, |batches|)) ==> tx.Recorded()
  {
    NextStatement(rows, batches, i);
    reply := tx.Execute(batches[i]);
  }

  method ExecuteAll(tx: Transaction, batches: seq<Batch>) returns (failed: Option<Failure>, written: nat)
    modifies tx
    ensures failed.None? ==> tx.written == RowsUpTo(old(tx.written), batches, |batches|)
    ensures failed.None? ==> written == |StepsUpTo(batches, |batches|)|
    ensures old(tx.position) <= tx.position
    ensures failed.None? ==> AllAccepted(tx.replies, old(tx.position), tx.position)
    ensures failed.Some? ==> LastFailed(tx.replies, old(tx.position), tx.position, failed.value)
    ensures old(tx.written) <= tx.written
    ensures old(tx.Recorded()) && Distinct(RowsUpTo(old(tx.written), batches, |batches|)) ==> tx.Recorded()
  {
    written := 0;
    ghost var rows, start := tx.written, tx.position;
    ghost var fits := tx.Recorded() && Distinct(RowsUpTo(rows, batches, |batches|));
    for i := 0 to |batches|
      invariant tx.written == RowsUpTo(rows, batches, i)
      invariant written == |StepsUpTo(batches, i)|
      invariant start <= tx.position && AllAccepted(tx.replies, start, tx.position)
      invariant fits ==> tx.Recorded()
    {
      var reply := ExecuteNext(tx, batches, i, rows);
      if !reply.Accepted? {
        assert tx.replies(tx.position - 1) == reply;
        return Some(FailureOf(reply)), written;
      }
      written := written + |batches[i].steps|;
    }
    failed := None;
  }

  /** `group_write`: the statements of the chosen units, one after the other. The batches
      before a refused step are executed, and the transaction rolled back after it. */
  method GroupWrite(tx: Transaction, load: Load, plan: Plan,
                    chosen: Option<set<string>>) returns (failed: Option<Failure>)
    requires PolicyValid(load.policy)
    modifies tx
    ensures failed.None? ==> tx.written == old(tx.written) + Units(Selected(plan.steps, chosen))
    ensures failed.None? ==> !Unwritable(load, plan, chosen)
    ensures old(tx.position) <= tx.position
    ensures failed.None? ==> AllAccepted(tx.replies, old(tx.position), tx.position)
    ensures failed.Some? ==> Trouble(load, plan, chosen, tx.replies, old(tx.position), tx.position, failed.value)
    ensures old(tx.written) <= tx.written
    ensures old(tx.Recorded()) && Distinct(old(tx.written) + Units(Selected(plan.steps, chosen))) ==> tx.Recorded()
  {
    var batches, error := Statements(load.operation, load.tables, load.records, load.policy, plan, load.bound, chosen);
    var written;
    StepsUpToAll(batches, |batches|);
    assert batches[..|batches|] == batches;
    DistinctPrefix(tx.written, Selected(plan.steps, chosen), AllSteps(batches));
    failed, written := ExecuteAll(tx, batches);
    ExpectedCountsSelected(plan.steps, chosen);
    if failed.None? {
      if error.Some? {
        failed := Some(Other(error.value));
      } else if written != Expected(plan.steps, chosen, |plan.steps|) {
        failed := Some(Other("LOAD_ROW_COUNT_MISMATCH"));
      }
    }
  }

  function CodeOf(reply: Reply): string
    requires !reply.Accepted?
  {
    FailureOf(reply).code
  }

  /** The failure that leaves `begin_nested`: a rollback that fails itself hides its cause. */
  function AfterRollback(reply: Reply, cause: Failure): Failure
  {
    if reply.Accepted? then cause else Other(CodeOf(reply))
  }

  /** How a group fails: its SAVEPOINT does, or there is trouble behind it and a rollback. */
  ghost predicate GroupFails(load: Load, plan: Plan, units: set<string>, replies: nat -> Reply, from: nat, to: nat,
                             failure: Failure)
  {
    || (to == from + 1 && LastFailed(replies, from, to, failure))
    || (replies(from).Accepted? && exists mid: nat, cause ::
          && from < mid && to == mid + 1 && failure == AfterRollback(replies(mid), cause)
          && Trouble(load, plan, Some(units), replies, from, mid, cause))
  }

  /** `begin_nested`: on any error the rows are as they were before the group, unless the
      rollback fails too. A rollback checks no constraint, so its failure is none of those
      that quarantine a group. */
  method GroupUnderSavepoint(tx: Transaction, load: Load, plan: Plan,
                             units: set<string>) returns (failed: Option<Failure>)
    requires PolicyValid(load.policy)
    modifies tx
    ensures failed.None? ==> tx.written == old(tx.written) + Units(Selected(plan.steps, Some(units)))
    ensures failed.None? ==> !Unwritable(load, plan, Some(units))
    ensures failed.Some? ==>
              tx.written == old(tx.written) || (failed.value.Other? && tx.position > 0 && !tx.replies(tx.position - 1).Accepted?)
    ensures old(tx.position) <= tx.position
    ensures failed.None? ==> old(tx.position) + 2 <= tx.position && AllAccepted(tx.replies, old(tx.position), tx.position)
    ensures failed.Some? ==> GroupFails(load, plan, units, tx.replies, old(tx.position), tx.position, failed.value)
    ensures old(tx.Recorded()) && Distinct(old(tx.written) + Units(Selected(plan.steps, Some(units)))) ==> tx.Recorded()
  {
    var begun := tx.Await();
    if !begun.Accepted? {
      return Some(FailureOf(begun));
    }
    ghost var start := tx.position - 1;
    var savepoint := |tx.written|;
    failed := GroupWrite(tx, load, plan, Some(units));
    if failed.Some? {
      TroubleAfterSavepoint(load, plan, Some(units), tx.replies, start, tx.position, failed.value);
    } else {
      var released := tx.Await();
      if !released.Accepted? {
        failed := Some(FailureOf(released));
      }
    }
    if failed.Some? {
      assert Trouble(load, plan, Some(units), tx.replies, start, tx.position, failed.value);
      failed := LeaveGroup(tx, savepoint, failed.value, old(tx.written));
    }
  }

  lemma {:induction false} TroubleAfterSavepoint(load: Load, plan: Plan, chosen: Option<set<string>>, replies: nat -> Reply,
                                                 from: nat, to: nat, failure: Failure)
    requires replies(from).Accepted? && Trouble(load, plan, chosen, replies, from + 1, to, failure)
    ensures Trouble(load, plan, chosen, replies, from, to, failure)
  {
  }

  /** The way out of `begin_nested` after a failure. */
  method LeaveGroup(tx: Transaction, savepoint: nat, failure: Failure, ghost rows: seq<string>) returns (failed: Option<Failure>)
    requires rows <= tx.written && savepoint == |rows|
    modifies tx
    ensures tx.position == old(tx.position) + 1
    ensures failed == Some(AfterRollback(tx.replies(old(tx.position)), failure))
    ensures tx.written == if tx.replies(old(tx.position)).Accepted? then rows else old(tx.written)
    ensures old(tx.Recorded()) ==> tx.Recorded()
  {
    failed := Some(failure);
    var undone := tx.RollbackTo(savepoint);
    if !undone.Accepted? {
      failed := Some(Other(CodeOf(undone)));
    }
  }

  predicate Quarantinable(code: string)
  {
    code == "LOAD_DUPLICATE_KEY" || code == "LOAD_FOREIGN_KEY" || code == "LOAD_CHECK" || code == "LOAD_NOT_NULL"
  }

  function Quarantined(plan: Plan, units: set<string>, code: string): Plan
  {
    plan.(steps := seq(|plan.steps|, i requires 0 <= i < |plan.steps| =>
      var s := plan.steps[i];
      if s.unit in units then s.(action := Quarantine, codes := s.codes + {code}) else s))
  }

  // ---------------------------------------------------------------------------
  // What the loop keeps
  // ---------------------------------------------------------------------------

  /** A step is what it was, or it was quarantined with one more code. */
  predicate SameOrQuarantined(was: Step, now: Step)
  {
    || now == was
    || (now.action.Quarantine? && !was.action.Quarantine? &&
        exists c :: c in now.codes && Quarantinable(c) && now == was.(action := Quarantine, codes := was.codes + {c}))
  }

  ghost predicate Evolved(was: Plan, now: Plan)
  {
    && |now.steps| == |was.steps| && now == was.(steps := now.steps)
    && forall i :: 0 <= i < |now.steps| ==> SameOrQuarantined(was.steps[i], now.steps[i])
  }

  predicate InGroups(groups: seq<seq<string>>, n: nat, u: string)
    requires n <= |groups|
  {
    exists g :: 0 <= g < n && u in groups[g]
  }

  /** A group is quarantined whole or not at all. */
  ghost predicate AllOrNone(steps: seq<Step>, units: set<string>)
  {
    || (forall s :: s in steps && s.unit in units ==> s.action.Quarantine?)
    || (forall s :: s in steps && s.unit in units ==> !s.action.Quarantine?)
  }

  ghost predicate Settled(steps: seq<Step>, groups: seq<seq<string>>, n: nat)
    requires n <= |groups|
  {
    forall g :: 0 <= g < n ==> AllOrNone(steps, Elements(groups[g]))
  }

  ghost predicate Untouched(was: Plan, now: Plan, groups: seq<seq<string>>, n: nat)
    requires n <= |groups| && |was.steps| == |now.steps|
  {
    forall i :: 0 <= i < |now.steps| && !InGroups(groups, n, now.steps[i].unit) ==> now.steps[i] == was.steps[i]
  }

  ghost predicate WritesUnit(steps: seq<Step>, u: string)
  {
    exists s :: s in steps && Writes(s) && s.unit == u
  }

  /** The rows in effect: the writing steps of the finished groups, once each. */
  ghost predicate InEffect(steps: seq<Step>, groups: seq<seq<string>>, n: nat, rows: seq<string>)
    requires n <= |groups|
  {
    && Distinct(rows)
    && forall u :: u in rows <==> WritesUnit(steps, u) && InGroups(groups, n, u)
  }

  ghost predicate LoopHolds(was: Plan, now: Plan, groups: seq<seq<string>>, n: nat, rows: seq<string>)
    requires n <= |groups|
  {
    && Evolved(was, now)
    && Untouched(was, now, groups, n)
    && Settled(now.steps, groups, n)
    && InEffect(now.steps, groups, n, rows)
  }

  ghost predicate Disjoint(groups: seq<seq<string>>)
  {
    forall g, h :: 0 <= g < h < |groups| ==> Elements(groups[g]) !! Elements(groups[h])
  }

  lemma {:induction false} InGroupsNext(groups: seq<seq<string>>, n: nat, u: string)
    requires n < |groups|
    ensures InGroups(groups, n + 1, u) <==> InGroups(groups, n, u) || u in groups[n]
  {
  }

  lemma {:induction false} NotInEarlierGroups(groups: seq<seq<string>>, n: nat, u: string)
    requires n < |groups| && Disjoint(groups) && u in groups[n]
    ensures !InGroups(groups, n, u)
  {
    forall g | 0 <= g < n
      ensures u !in groups[g]
    {
      assert Elements(groups[g]) !! Elements(groups[n]) && u in Elements(groups[n]);
    }
  }

  lemma {:induction false} SelectedUnitsDistinct(steps: seq<Step>, chosen: Option<set<string>>)
    requires Distinct(Units(steps))
    ensures Distinct(Units(Selected(steps, chosen)))
    decreases |steps|
  {
    if |steps| > 0 {
      var front, last := steps[..|steps| - 1], steps[|steps| - 1];
      assert Units(front) == Units(steps)[..|front|];
      SelectedUnitsDistinct(front, chosen);
      var selected := Selected(front, chosen);
      UnitsOfAppend(selected, [last]);
      forall i | 0 <= i < |selected|
        ensures selected[i].unit != last.unit
      {
        SelectedAreSteps(front, chosen, selected[i]);
        var j :| 0 <= j < |front| && front[j] == selected[i];
        assert Units(steps)[j] != Units(steps)[|front|];
      }
    }
  }

  lemma {:induction false} SelectedUnits(steps: seq<Step>, units: set<string>, u: string)
    ensures u in Units(Selected(steps, Some(units))) <==> u in units && WritesUnit(steps, u)
  {
    var selected := Selected(steps, Some(units));
    if u in Units(selected) {
      var i :| 0 <= i < |selected| && Units(selected)[i] == u;
      SelectedAreSteps(steps, Some(units), selected[i]);
    }
    if u in units && WritesUnit(steps, u) {
      var s :| s in steps && Writes(s) && s.unit == u;
      SelectedAreSteps(steps, Some(units), s);
      var i :| 0 <= i < |selected| && selected[i] == s;
      assert Units(selected)[i] == u;
    }
  }

  /** A group that was written joins the rows in effect. */
  lemma {:induction false} WrittenGroup(was: Plan, now: Plan, groups: seq<seq<string>>, n: nat, rows: seq<string>)
    requires n < |groups| && Disjoint(groups) && LoopHolds(was, now, groups, n, rows) && Distinct(Units(now.steps))
    requires forall s :: s in now.steps && s.unit in Elements(groups[n]) ==> !s.action.Quarantine?
    ensures LoopHolds(was, now, groups, n + 1, rows + Units(Selected(now.steps, Some(Elements(groups[n])))))
  {
    var more := Units(Selected(now.steps, Some(Elements(groups[n]))));
    SelectedUnitsDistinct(now.steps, Some(Elements(groups[n])));
    forall u
      ensures u in more <==> u in groups[n] && WritesUnit(now.steps, u)
    {
      SelectedUnits(now.steps, Elements(groups[n]), u);
    }
    RowsJoin(now.steps, groups, n, rows, more);
    forall i | 0 <= i < |now.steps| && !InGroups(groups, n + 1, now.steps[i].unit)
      ensures now.steps[i] == was.steps[i]
    {
      InGroupsNext(groups, n, now.steps[i].unit);
    }
  }

  lemma {:induction false} RowsJoin(steps: seq<Step>, groups: seq<seq<string>>, n: nat, rows: seq<string>,
                                    more: seq<string>)
    requires n < |groups| && Disjoint(groups) && InEffect(steps, groups, n, rows) && Distinct(more)
    requires forall u :: u in more <==> u in groups[n] && WritesUnit(steps, u)
    ensures InEffect(steps, groups, n + 1, rows + more)
  {
    forall u
      ensures u in rows + more <==> WritesUnit(steps, u) && InGroups(groups, n + 1, u)
      ensures !(u in rows && u in more)
    {
      InGroupsNext(groups, n, u);
      if u in groups[n] {
        NotInEarlierGroups(groups, n, u);
      }
    }
    var all := rows + more;
    forall i, j | 0 <= i < j < |all|
      ensures all[i] != all[j]
    {
      if i < |rows| <= j {
        assert all[i] in rows && all[j] in more;
      }
    }
  }

  /** A group that the plan had already excluded adds no row. */
  lemma {:induction false} ExcludedGroup(was: Plan, now: Plan, groups: seq<seq<string>>, n: nat, rows: seq<string>)
    requires n < |groups| && LoopHolds(was, now, groups, n, rows)
    requires forall s :: s in now.steps && s.unit in Elements(groups[n]) ==> s.action.Quarantine?
    ensures LoopHolds(was, now, groups, n + 1, rows)
  {
    forall u
      ensures InGroups(groups, n + 1, u) <==> InGroups(groups, n, u) || u in groups[n]
    {
      InGroupsNext(groups, n, u);
    }
    forall u | u in groups[n]
      ensures !WritesUnit(now.steps, u)
    {
    }
  }

  /** A group that the database refused is quarantined and leaves no row. */
  lemma {:induction false} RefusedGroup(was: Plan, now: Plan, groups: seq<seq<string>>, n: nat, rows: seq<string>,
                                        code: string)
    requires n < |groups| && Disjoint(groups) && LoopHolds(was, now, groups, n, rows) && Quarantinable(code)
    requires forall s :: s in now.steps && s.unit in Elements(groups[n]) ==> !s.action.Quarantine?
    ensures LoopHolds(was, Quarantined(now, Elements(groups[n]), code), groups, n + 1, rows)
  {
    var units := Elements(groups[n]);
    var after := Quarantined(now, units, code);
    forall i | 0 <= i < |after.steps|
      ensures SameOrQuarantined(was.steps[i], after.steps[i])
      ensures !InGroups(groups, n + 1, after.steps[i].unit) ==> after.steps[i] == was.steps[i]
    {
      var u := now.steps[i].unit;
      InGroupsNext(groups, n, u);
      assert now.steps[i] in now.steps;
      if u in units {
        NotInEarlierGroups(groups, n, u);
        assert code in after.steps[i].codes;
      }
    }
    forall g | 0 <= g < n + 1
      ensures AllOrNone(after.steps, Elements(groups[g]))
    {
      if g < n {
        assert AllOrNone(now.steps, Elements(groups[g])) && Elements(groups[g]) !! units;
        OtherStepsStay(now, units, code, Elements(groups[g]));
      }
    }
    forall u
      ensures WritesUnit(after.steps, u) <==> WritesUnit(now.steps, u) && u !in units
    {
      WritesAfterQuarantine(now, units, code, u);
    }
    forall u
      ensures InGroups(groups, n + 1, u) <==> InGroups(groups, n, u) || u in groups[n]
      ensures InGroups(groups, n, u) ==> u !in groups[n]
    {
      InGroupsNext(groups, n, u);
      if u in groups[n] {
        NotInEarlierGroups(groups, n, u);
      }
    }
  }

  lemma {:induction false} OtherStepsStay(now: Plan, units: set<string>, code: string, others: set<string>)
    requires others !! units
    ensures forall s :: s in Quarantined(now, units, code).steps && s.unit in others ==> s in now.steps
  {
    var after := Quarantined(now, units, code);
    forall s | s in after.steps && s.unit in others
      ensures s in now.steps
    {
      var i :| 0 <= i < |after.steps| && after.steps[i] == s;
      assert now.steps[i] in now.steps;
    }
  }

  lemma {:induction false} WritesAfterQuarantine(now: Plan, units: set<string>, code: string, u: string)
    ensures WritesUnit(Quarantined(now, units, code).steps, u) <==> WritesUnit(now.steps, u) && u !in units
  {
    var after := Quarantined(now, units, code);
    if WritesUnit(after.steps, u) {
      var s :| s in after.steps && Writes(s) && s.unit == u;
      var i :| 0 <= i < |after.steps| && after.steps[i] == s;
      assert now.steps[i] in now.steps;
    }
    if WritesUnit(now.steps, u) && u !in units {
      var s :| s in now.steps && Writes(s) && s.unit == u;
      var i :| 0 <= i < |now.steps| && now.steps[i] == s;
      assert after.steps[i] == s;
    }
  }

  lemma {:induction false} EvolvedKeepsUnits(was: Plan, now: Plan)
    requires Evolved(was, now)
    ensures Units(now.steps) == Units(was.steps)
  {
    forall i | 0 <= i < |now.steps|
      ensures now.steps[i].unit == was.steps[i].unit
    {
      assert SameOrQuarantined(was.steps[i], now.steps[i]);
    }
  }

  // ---------------------------------------------------------------------------
  // The write
  // ---------------------------------------------------------------------------

  /** The result of writing in either mode. */
  ghost predicate Result(load: Load, was: Plan, now: Plan, rows: seq<string>)
  {
    if load.policy.quarantines then Loaded(load, was, now, rows)
    else now == was && rows == Units(Selected(was.steps, None))
  }

  /** The result of writing in quarantine mode. */
  ghost predicate Loaded(load: Load, was: Plan, now: Plan, rows: seq<string>)
  {
    exists groups :: G.IsGrouping(was.steps, load.origins, load.links, groups) && LoopHolds(was, now, groups, |groups|, rows)
  }

  predicate HasQuarantine(steps: seq<Step>, units: set<string>)
  {
    exists s :: s in steps && s.unit in units && s.action.Quarantine?
  }

  predicate HasOther(steps: seq<Step>, units: set<string>)
  {
    exists s :: s in steps && s.unit in units && !s.action.Quarantine?
  }

  ghost predicate KeptIn(was: Plan, now: Plan, units: set<string>)
  {
    && |was.steps| == |now.steps|
    && forall i :: 0 <= i < |was.steps| && was.steps[i].unit in units ==> now.steps[i] == was.steps[i]
  }

  ghost predicate ExcludedIn(was: Plan, now: Plan, units: set<string>, code: string)
  {
    && |was.steps| == |now.steps|
    && forall i :: 0 <= i < |was.steps| && was.steps[i].unit in units ==>
         now.steps[i] == was.steps[i].(action := Quarantine, codes := was.steps[i].codes + {code})
  }

  /** The codes of the four kinds of constraints. */
  ghost predicate OfConstraint(code: string)
  {
    code in {"LOAD_DUPLICATE_KEY", "LOAD_FOREIGN_KEY", "LOAD_CHECK", "LOAD_NOT_NULL"}
  }

  /** The reply with which the database refuses the group, the first in its span that is no
      acceptance: to its SAVEPOINT, or to a later call, and then the rollback follows. */
  ghost predicate RefusedAt(replies: nat -> Reply, from: nat, to: nat, k: nat)
  {
    && from <= k < to && replies(k).SqlError? && OfConstraint(replies(k).code)
    && AllAccepted(replies, from, k) && AllAccepted(replies, k + 1, to)
    && to == (if k == from then k + 1 else k + 2)
  }

  /** What became of a group in its turn, during which the database gave the replies from
      `from` up to `to`: the given plan excludes it and nothing was tried; or everything was
      accepted and its steps stay; or it was refused, and each of its steps is quarantined with
      the code of the refusal. */
  ghost predicate GroupSettled(load: Load, was: Plan, now: Plan, units: set<string>, replies: nat -> Reply, from: nat, to: nat)
  {
    if HasQuarantine(was.steps, units) then from == to && !HasOther(was.steps, units) && KeptIn(was, now, units)
    else if AllAccepted(replies, from, to) then
      from + 2 <= to && !Unwritable(load, was, Some(units)) && KeptIn(was, now, units)
    else exists k :: RefusedAt(replies, from, to, k) && ExcludedIn(was, now, units, replies(k).code)
  }

  /** The turn of a group ends the load: it mixes excluded and other steps; or it fails in a
      way that excludes no group. */
  ghost predicate GroupEnds(load: Load, was: Plan, units: set<string>, replies: nat -> Reply, from: nat, to: nat, error: string)
  {
    if HasQuarantine(was.steps, units) then from == to && HasOther(was.steps, units) && error == "LOAD_GROUP_UNRESOLVED"
    else exists failure ::
      GroupFails(load, was, units, replies, from, to, failure) && EndsLoad(failure) && error == failure.code
  }

  ghost predicate EndsLoad(failure: Failure)
  {
    failure.Other? || !OfConstraint(failure.code)
  }

  /** The turns of the first groups: each has a span of replies of its own, one after the other. */
  ghost predicate Turns(load: Load, was: Plan, now: Plan, groups: seq<seq<string>>, spans: seq<nat>, n: nat, replies: nat -> Reply)
  {
    && n <= |groups| && |spans| == n + 1
    && forall g :: 0 <= g < n ==> Turn(load, was, now, groups, spans, g, replies)
  }

  ghost predicate Turn(load: Load, was: Plan, now: Plan, groups: seq<seq<string>>, spans: seq<nat>, g: int, replies: nat -> Reply)
    requires 0 <= g < |groups| && g + 1 < |spans|
  {
    spans[g] <= spans[g + 1] && GroupSettled(load, was, now, Elements(groups[g]), replies, spans[g], spans[g + 1])
  }

  ghost predicate KeptOutside(before: Plan, after: Plan, units: set<string>)
  {
    && |after.steps| == |before.steps|
    && forall i :: 0 <= i < |before.steps| && before.steps[i].unit !in units ==> after.steps[i] == before.steps[i]
  }

  /** A later turn changes nothing about an earlier group. */
  lemma {:induction false} TurnStays(load: Load, was: Plan, now: Plan, after: Plan, groups: seq<seq<string>>, spans: seq<nat>,
                                     longer: seq<nat>, g: nat, n: nat, replies: nat -> Reply)
    requires g < n < |groups| && Disjoint(groups) && |spans| == n + 1 && Turn(load, was, now, groups, spans, g, replies)
    requires Units(now.steps) == Units(was.steps) && KeptOutside(now, after, Elements(groups[n]))
    requires |longer| == n + 2 && longer[..n + 1] == spans
    ensures Turn(load, was, after, groups, longer, g, replies)
  {
    assert longer[g] == spans[g] && longer[g + 1] == spans[g + 1];
    assert Elements(groups[g]) !! Elements(groups[n]);
    forall i | 0 <= i < |was.steps| && was.steps[i].unit in Elements(groups[g])
      ensures i < |now.steps| && i < |after.steps| && after.steps[i] == now.steps[i]
    {
      assert Units(now.steps)[i] == Units(was.steps)[i];
    }
  }

  lemma {:induction false} TurnsNext(load: Load, was: Plan, now: Plan, after: Plan, groups: seq<seq<string>>, spans: seq<nat>,
                                     n: nat, replies: nat -> Reply, to: nat)
    requires n < |groups| && Disjoint(groups) && Turns(load, was, now, groups, spans, n, replies)
    requires Units(now.steps) == Units(was.steps) && KeptOutside(now, after, Elements(groups[n])) && spans[n] <= to
    requires GroupSettled(load, was, after, Elements(groups[n]), replies, spans[n], to)
    ensures Turns(load, was, after, groups, spans + [to], n + 1, replies)
  {
    var longer := spans + [to];
    assert longer[..n + 1] == spans;
    forall g | 0 <= g < n + 1
      ensures Turn(load, was, after, groups, longer, g, replies)
    {
      if g < n {
        TurnStays(load, was, now, after, groups, spans, longer, g, n, replies);
      }
    }
  }

  /** The steps of these units are still those of the original plan. */
  ghost predicate Unchanged(was: Plan, now: Plan, units: set<string>)
  {
    && |now.steps| == |was.steps| && now == was.(steps := now.steps) && Units(now.steps) == Units(was.steps)
    && forall i :: 0 <= i < |now.steps| && was.steps[i].unit in units ==> now.steps[i] == was.steps[i]
  }

  lemma {:induction false} NextGroupUnchanged(was: Plan, now: Plan, groups: seq<seq<string>>, n: nat, rows: seq<string>)
    requires n < |groups| && Disjoint(groups) && LoopHolds(was, now, groups, n, rows)
    ensures Unchanged(was, now, Elements(groups[n]))
  {
    EvolvedKeepsUnits(was, now);
    forall i | 0 <= i < |now.steps| && was.steps[i].unit in Elements(groups[n])
      ensures now.steps[i] == was.steps[i]
    {
      assert Units(now.steps)[i] == Units(was.steps)[i];
      NotInEarlierGroups(groups, n, now.steps[i].unit);
    }
  }

  lemma {:induction false} SameExclusion(was: Plan, now: Plan, units: set<string>)
    requires Unchanged(was, now, units)
    ensures HasQuarantine(now.steps, units) <==> HasQuarantine(was.steps, units)
    ensures HasOther(now.steps, units) <==> HasOther(was.steps, units)
  {
    forall i | 0 <= i < |now.steps|
      ensures now.steps[i].unit == was.steps[i].unit
    {
      assert Units(now.steps)[i] == Units(was.steps)[i];
    }
    StepsCarryOver(was, now, units);
    StepsCarryOver(now, was, units);
  }

  lemma {:induction false} StepsCarryOver(a: Plan, b: Plan, units: set<string>)
    requires |a.steps| == |b.steps|
    requires forall i :: 0 <= i < |a.steps| && a.steps[i].unit in units ==> b.steps[i] == a.steps[i]
    ensures forall s :: s in a.steps && s.unit in units ==> s in b.steps
  {
    forall s | s in a.steps && s.unit in units
      ensures s in b.steps
    {
      var i :| 0 <= i < |a.steps| && a.steps[i] == s;
      assert b.steps[i] == s;
    }
  }

  /** The verdicts on the steps of a group turn on those steps alone. */
  lemma {:induction false} SameVerdicts(load: Load, a: Plan, b: Plan, units: set<string>)
    requires Unchanged(a, b, units)
    requires Judged(load.operation, load.tables, load.records, load.policy, Some(units), a.steps)
    ensures Judged(load.operation, load.tables, load.records, load.policy, Some(units), b.steps)
  {
    forall s | s in b.steps
      ensures s.unit in load.records
    {
      var i :| 0 <= i < |b.steps| && b.steps[i] == s;
      assert Units(b.steps)[i] == Units(a.steps)[i] && a.steps[i] in a.steps;
    }
    forall i | 0 <= i < |b.steps|
      ensures !Judge(load.operation, load.tables, load.records, load.policy, Some(units), b.steps[i]).Refuse?
    {
      assert Units(b.steps)[i] == Units(a.steps)[i] && b.steps[i] in b.steps;
      assert !Judge(load.operation, load.tables, load.records, load.policy, Some(units), a.steps[i]).Refuse?;
    }
  }

  lemma {:induction false} UnchangedBack(was: Plan, now: Plan, units: set<string>)
    requires Unchanged(was, now, units)
    ensures Unchanged(now, was, units)
  {
    forall i | 0 <= i < |now.steps|
      ensures now.steps[i].unit == was.steps[i].unit
    {
      assert Units(now.steps)[i] == Units(was.steps)[i];
    }
  }

  lemma {:induction false} SamePresentation(load: Load, was: Plan, now: Plan, units: set<string>)
    requires load.policy.quarantines && Unchanged(was, now, units)
    ensures Presentable(now, load.records, load.policy, load.bound, Some(units)) <==>
            Presentable(was, load.records, load.policy, load.bound, Some(units))
  {
  }

  lemma {:induction false} SameVerdict(load: Load, a: Plan, b: Plan, units: set<string>, i: nat)
    requires Unchanged(a, b, units) && i < |a.steps| && a.steps[i].unit in load.records
    ensures b.steps[i].unit == a.steps[i].unit
    ensures Judge(load.operation, load.tables, load.records, load.policy, Some(units), b.steps[i]) ==
            Judge(load.operation, load.tables, load.records, load.policy, Some(units), a.steps[i])
  {
    assert Units(b.steps)[i] == Units(a.steps)[i];
  }

  lemma {:induction false} SameRefusal(load: Load, a: Plan, b: Plan, units: set<string>, code: string, i: nat)
    requires Unchanged(a, b, units) && (forall s :: s in a.steps ==> s.unit in load.records)
    requires forall s :: s in b.steps ==> s.unit in load.records
    requires FirstRefusal(load.operation, load.tables, load.records, load.policy, Some(units), a.steps, code, i)
    ensures FirstRefusal(load.operation, load.tables, load.records, load.policy, Some(units), b.steps, code, i)
  {
    forall j | 0 <= j <= i
      ensures Judge(load.operation, load.tables, load.records, load.policy, Some(units), b.steps[j]) ==
              Judge(load.operation, load.tables, load.records, load.policy, Some(units), a.steps[j])
    {
      assert a.steps[j] in a.steps;
      SameVerdict(load, a, b, units, j);
    }
  }

  lemma {:induction false} SameUnwritable(load: Load, a: Plan, b: Plan, units: set<string>)
    requires load.policy.quarantines && Unchanged(a, b, units)
    ensures Unwritable(load, a, Some(units)) ==> Unwritable(load, b, Some(units))
    ensures forall code :: UnwritableWith(load, a, Some(units), code) ==> UnwritableWith(load, b, Some(units), code)
  {
    SamePresentation(load, a, b, units);
    UnchangedBack(a, b, units);
    if Judged(load.operation, load.tables, load.records, load.policy, Some(units), b.steps) {
      SameVerdicts(load, b, a, units);
    }
    forall code | UnwritableWith(load, a, Some(units), code)
      ensures UnwritableWith(load, b, Some(units), code)
    {
      if Presentable(a, load.records, load.policy, load.bound, Some(units)) {
        PlannedUnitsHaveRecords(b, load.records);
        var i :| FirstRefusal(load.operation, load.tables, load.records, load.policy, Some(units), a.steps, code, i);
        SameRefusal(load, a, b, units, code, i);
      }
    }
  }

  /** Whether and why the next group may not be written is decided by the plan as it was given. */
  lemma {:induction false} JudgedAsGiven(load: Load, was: Plan, now: Plan, groups: seq<seq<string>>, n: nat,
                                         rows: seq<string>)
    requires load.policy.quarantines && n < |groups| && Disjoint(groups) && LoopHolds(was, now, groups, n, rows)
    ensures var units := Elements(groups[n]);
            && Unchanged(was, now, units)
            && (HasQuarantine(now.steps, units) <==> HasQuarantine(was.steps, units))
            && (HasOther(now.steps, units) <==> HasOther(was.steps, units))
            && (Unwritable(load, now, Some(units)) <==> Unwritable(load, was, Some(units)))
            && forall code :: UnwritableWith(load, now, Some(units), code) ==> UnwritableWith(load, was, Some(units), code)
  {
    var units := Elements(groups[n]);
    NextGroupUnchanged(was, now, groups, n, rows);
    SameExclusion(was, now, units);
    UnchangedBack(was, now, units);
    SameUnwritable(load, was, now, units);
    SameUnwritable(load, now, was, units);
  }

  lemma {:induction false} FailsAsGiven(load: Load, was: Plan, now: Plan, units: set<string>, replies: nat -> Reply, from: nat,
                                        to: nat, failure: Failure)
    requires Unwritable(load, now, Some(units)) ==> Unwritable(load, was, Some(units))
    requires forall code :: UnwritableWith(load, now, Some(units), code) ==> UnwritableWith(load, was, Some(units), code)
    requires GroupFails(load, now, units, replies, from, to, failure)
    ensures GroupFails(load, was, units, replies, from, to, failure)
  {
    if !(to == from + 1 && LastFailed(replies, from, to, failure)) {
      var mid: nat, cause :| from < mid && to == mid + 1 &&
        Trouble(load, now, Some(units), replies, from, mid, cause) && failure == AfterRollback(replies(mid), cause);
      assert Trouble(load, was, Some(units), replies, from, mid, cause);
    }
  }

  /** A failure that excludes a group is one of its span's own replies. */
  lemma {:induction false} RefusalOfItsOwn(load: Load, plan: Plan, units: set<string>, replies: nat -> Reply, from: nat, to: nat,
                                           code: string) returns (k: nat)
    requires GroupFails(load, plan, units, replies, from, to, Sql(code)) && Quarantinable(code)
    ensures RefusedAt(replies, from, to, k) && replies(k).code == code
    ensures !AllAccepted(replies, from, to)
  {
    k := if to == from + 1 then from else to - 2;
    assert !replies(k).Accepted?;
  }

  lemma {:induction false} NowExcluded(was: Plan, now: Plan, units: set<string>, code: string)
    requires Unchanged(was, now, units)
    ensures ExcludedIn(was, Quarantined(now, units, code), units, code)
    ensures KeptOutside(now, Quarantined(now, units, code), units)
  {
    forall i | 0 <= i < |was.steps|
      ensures now.steps[i].unit == was.steps[i].unit
    {
      assert Units(now.steps)[i] == Units(was.steps)[i];
    }
  }

  /** One turn of the loop over the groups. */
  method WriteNextGroup(tx: Transaction, load: Load, ghost was: Plan, plan: Plan, groups: seq<seq<string>>, n: nat)
    returns (r: Result<Plan, string>)
    requires PolicyValid(load.policy) && load.policy.quarantines && n < |groups| && Disjoint(groups)
    requires LoopHolds(was, plan, groups, n, tx.written) && Distinct(Units(plan.steps)) && tx.Recorded()
    modifies tx
    ensures tx.Recorded() && old(tx.position) <= tx.position
    ensures r.Ok? ==> LoopHolds(was, r.value, groups, n + 1, tx.written) && KeptOutside(plan, r.value, Elements(groups[n]))
    ensures r.Ok? ==> GroupSettled(load, was, r.value, Elements(groups[n]), tx.replies, old(tx.position), tx.position)
    ensures r.Err? ==> GroupEnds(load, was, Elements(groups[n]), tx.replies, old(tx.position), tx.position, r.error)
  {
    var units := Elements(groups[n]);
    JudgedAsGiven(load, was, plan, groups, n, tx.written);
    ghost var rows := tx.written;
    if HasQuarantine(plan.steps, units) {
      if HasOther(plan.steps, units) {
        return Err("LOAD_GROUP_UNRESOLVED");
      }
      ExcludedGroup(was, plan, groups, n, rows);
      return Ok(plan);
    }
    WrittenGroup(was, plan, groups, n, rows);
    var failed := GroupUnderSavepoint(tx, load, plan, units);
    if failed.None? {
      return Ok(plan);
    }
    FailsAsGiven(load, was, plan, units, tx.replies, old(tx.position), tx.position, failed.value);
    if failed.value.Other? || !Quarantinable(failed.value.code) {
      assert EndsLoad(failed.value);
      return Err(failed.value.code);
    }
    ghost var k := RefusalOfItsOwn(load, was, units, tx.replies, old(tx.position), tx.position, failed.value.code);
    RefusedGroup(was, plan, groups, n, rows, failed.value.code);
    NowExcluded(was, plan, units, failed.value.code);
    r := Ok(Quarantined(plan, units, failed.value.code));
  }

  /** The loop ended in the turn that follows the spans. */
  ghost predicate EndsEarly(load: Load, was: Plan, groups: seq<seq<string>>, spans: seq<nat>, replies: nat -> Reply, to: nat,
                            error: string)
  {
    && 0 < |spans| <= |groups|
    && (exists n: nat, now :: |spans| == n + 1 && Turns(load, was, now, groups, spans, n, replies))
    && GroupEnds(load, was, Elements(groups[|spans| - 1]), replies, spans[|spans| - 1], to, error)
  }

  /** The loop went through all groups, whose spans cover all replies. */
  ghost predicate RunsThrough(load: Load, was: Plan, now: Plan, groups: seq<seq<string>>, spans: seq<nat>, replies: nat -> Reply,
                              from: nat, to: nat)
  {
    Turns(load, was, now, groups, spans, |groups|, replies) && spans[0] == from && spans[|groups|] == to
  }

  method WriteGroups(tx: Transaction, load: Load, plan: Plan, groups: seq<seq<string>>)
    returns (r: Result<Plan, string>, ghost spans: seq<nat>)
    requires PolicyValid(load.policy) && load.policy.quarantines && Disjoint(groups) && Distinct(Units(plan.steps))
    requires tx.written == [] && tx.Recorded()
    modifies tx
    ensures tx.Recorded() && old(tx.position) <= tx.position
    ensures r.Ok? ==> LoopHolds(plan, r.value, groups, |groups|, tx.written)
    ensures r.Ok? ==> RunsThrough(load, plan, r.value, groups, spans, tx.replies, old(tx.position), tx.position)
    ensures r.Err? ==>
              spans != [] && spans[0] == old(tx.position) && EndsEarly(load, plan, groups, spans, tx.replies, tx.position, r.error)
  {
    r := Ok(plan);
    spans := [tx.position];
    for n := 0 to |groups|
      invariant r.Ok? && LoopHolds(plan, r.value, groups, n, tx.written) && tx.Recorded()
      invariant Turns(load, plan, r.value, groups, spans, n, tx.replies)
      invariant spans[0] == old(tx.position) <= spans[n] == tx.position
    {
      EvolvedKeepsUnits(plan, r.value);
      ghost var now := r.value;
      r := WriteNextGroup(tx, load, plan, r.value, groups, n);
      if r.Err? {
        assert Turns(load, plan, now, groups, spans, n, tx.replies);
        return;
      }
      TurnsNext(load, plan, now, r.value, groups, spans, n, tx.replies, tx.position);
      spans := spans + [tx.position];
    }
  }

  lemma {:induction false} AtomicPlanHasNoQuarantine(load: Load, plan: Plan)
    requires Presentable(plan, load.records, load.policy, load.bound, None) && !load.policy.quarantines
    ensures forall s :: s in plan.steps ==> !s.action.Quarantine?
  {
  }

  /** The given plan has no groups, or more than the budget allows, and the error says so. */
  ghost predicate Ungroupable(load: Load, plan: Plan, error: string)
  {
    || G.GroupingRefused(plan.steps, load.origins, load.links, load.maxEvaluations, error)
    || (error == "SECURITY_LIMIT_EXCEEDED" && exists groups ::
          G.IsGrouping(plan.steps, load.origins, load.links, groups) && |groups| * |plan.steps| > load.maxEvaluations)
  }

  /** The groups of the given plan fit the budget, and the replies of the database are those of
      their turns. */
  ghost predicate Accounted(load: Load, was: Plan, now: Plan, replies: nat -> Reply, from: nat, to: nat)
  {
    exists groups, spans ::
      && G.IsGrouping(was.steps, load.origins, load.links, groups) && |groups| * |was.steps| <= load.maxEvaluations
      && RunsThrough(load, was, now, groups, spans, replies, from, to)
  }

  /** The groups fit the budget, and the load ended in the turn of one of them. */
  ghost predicate BrokenOff(load: Load, was: Plan, replies: nat -> Reply, from: nat, to: nat, error: string)
  {
    exists groups, spans ::
      && G.IsGrouping(was.steps, load.origins, load.links, groups) && |groups| * |was.steps| <= load.maxEvaluations
      && EndsEarly(load, was, groups, spans, replies, to, error) && spans[0] == from
  }

  /** The part of `_write` behind the test for the atomic mode. */
  method WriteInGroups(tx: Transaction, load: Load, plan: Plan) returns (r: Result<Plan, string>)
    requires PolicyValid(load.policy) && load.policy.quarantines && Ordered(plan) && tx.written == [] && tx.Recorded()
    modifies tx
    ensures tx.Recorded() && old(tx.position) <= tx.position
    ensures r.Ok? ==> Loaded(load, plan, r.value, tx.written)
    ensures r.Ok? ==> Accounted(load, plan, r.value, tx.replies, old(tx.position), tx.position)
    ensures r.Err? ==>
              || (tx.position == old(tx.position) && Ungroupable(load, plan, r.error))
              || BrokenOff(load, plan, tx.replies, old(tx.position), tx.position, r.error)
  {
    var grouped := G.DependencyGroups(plan.steps, load.origins, load.links, load.maxEvaluations);
    if grouped.Err? {
      return Err(grouped.error);
    }
    var groups := grouped.value;
    if |groups| * |plan.steps| > load.maxEvaluations {
      return Err("SECURITY_LIMIT_EXCEEDED");
    }
    ghost var spans;
    r, spans := WriteGroups(tx, load, plan, groups);
  }

  /** `_write`: the returned plan says what was written and what was left out. */
  method WritePlan(tx: Transaction, load: Load, plan: Plan) returns (r: Result<Plan, string>)
    requires PolicyValid(load.policy) && Ordered(plan) && tx.written == [] && tx.Recorded()
    modifies tx
    ensures tx.Recorded() && old(tx.position) <= tx.position
    ensures r.Ok? && !load.policy.quarantines ==>
              !Unwritable(load, plan, None) && AllAccepted(tx.replies, old(tx.position), tx.position)
    ensures r.Ok? && !load.policy.quarantines ==>
            r.value == plan && tx.written == Units(Selected(plan.steps, None)) && forall s :: s in plan.steps ==> !s.action.Quarantine?
    ensures r.Ok? && load.policy.quarantines ==> Loaded(load, plan, r.value, tx.written)
    ensures r.Ok? && load.policy.quarantines ==> Accounted(load, plan, r.value, tx.replies, old(tx.position), tx.position)
    ensures r.Err? && !load.policy.quarantines ==> exists failure ::
              Trouble(load, plan, None, tx.replies, old(tx.position), tx.position, failure) && r.error == failure.code
    ensures r.Err? && load.policy.quarantines ==>
              || (tx.position == old(tx.position) && Ungroupable(load, plan, r.error))
              || BrokenOff(load, plan, tx.replies, old(tx.position), tx.position, r.error)
  {
    if !load.policy.quarantines {
      SelectedUnitsDistinct(plan.steps, None);
      assert tx.written + Units(Selected(plan.steps, None)) == Units(Selected(plan.steps, None));
      var failed := GroupWrite(tx, load, plan, None);
      if failed.Some? {
        return Err(failed.value.code);
      }
      AtomicPlanHasNoQuarantine(load, plan);
      return Ok(plan);
    }
    r := WriteInGroups(tx, load, plan);
  }

  // ---------------------------------------------------------------------------
  // What the returned plan says about the rows
  // ---------------------------------------------------------------------------

  /** Units of one dependency group, the one quarantined, the other not. */
  ghost predicate Bound(load: Load, steps: seq<Step>, u: string, v: string)
  {
    G.Together(steps, load.origins, load.links, u, v) || G.Together(steps, load.origins, load.links, v, u)
  }

  /** Two steps that depend on each other, share a source record or come from linked
      records are both quarantined or both not. */
  lemma {:induction false} BoundStepsShareFate(load: Load, was: Plan, now: Plan, rows: seq<string>, a: Step, b: Step)
    requires Loaded(load, was, now, rows) && a in now.steps && b in now.steps
    requires Bound(load, was.steps, a.unit, b.unit)
    ensures a.action.Quarantine? <==> b.action.Quarantine?
  {
    var groups :| G.IsGrouping(was.steps, load.origins, load.links, groups) && LoopHolds(was, now, groups, |groups|, rows);
    EvolvedKeepsUnits(was, now);
    UnitOfStep(now.steps, a);
    UnitOfStep(now.steps, b);
    var g := GroupOfUnit(load, was.steps, groups, a.unit);
    G.GroupsAreClosed(was.steps, load.origins, load.links, groups, g, a.unit, b.unit);
    GroupSharesFate(now.steps, groups, g, a, b);
  }

  lemma {:induction false} GroupOfUnit(load: Load, steps: seq<Step>, groups: seq<seq<string>>, u: string) returns (g: nat)
    requires G.IsGrouping(steps, load.origins, load.links, groups) && u in Units(steps)
    ensures g < |groups| && u in groups[g]
  {
    assert G.Grouped(groups, u);
    g :| 0 <= g < |groups| && u in groups[g];
  }

  lemma {:induction false} GroupSharesFate(steps: seq<Step>, groups: seq<seq<string>>, g: nat, a: Step, b: Step)
    requires g < |groups| && Settled(steps, groups, |groups|)
    requires a in steps && b in steps && a.unit in groups[g] && b.unit in groups[g]
    ensures a.action.Quarantine? <==> b.action.Quarantine?
  {
    assert a.unit in Elements(groups[g]) && b.unit in Elements(groups[g]);
    assert AllOrNone(steps, Elements(groups[g]));
  }

  lemma {:induction false} UnitOfStep(steps: seq<Step>, s: Step)
    requires s in steps
    ensures s.unit in Units(steps)
  {
    var i :| 0 <= i < |steps| && steps[i] == s;
    assert Units(steps)[i] == s.unit;
  }

  /** The rows are exactly the inserting and updating steps of the returned plan, once each. */
  lemma {:induction false} RowsAreThePlannedWrites(load: Load, was: Plan, now: Plan, rows: seq<string>)
    requires Loaded(load, was, now, rows)
    ensures Distinct(rows)
    ensures forall u :: u in rows <==> WritesUnit(now.steps, u)
  {
    var groups :| G.IsGrouping(was.steps, load.origins, load.links, groups) && LoopHolds(was, now, groups, |groups|, rows);
    EvolvedKeepsUnits(was, now);
    forall u | WritesUnit(now.steps, u)
      ensures InGroups(groups, |groups|, u)
    {
      var s :| s in now.steps && Writes(s) && s.unit == u;
      UnitOfStep(now.steps, s);
      assert G.Grouped(groups, u);
    }
  }

  /** No row depends on a quarantined one. */
  lemma {:induction false} NoRowNeedsAQuarantinedOne(load: Load, was: Plan, now: Plan, rows: seq<string>, a: Step,
                                                     b: Step)
    requires Loaded(load, was, now, rows) && Ordered(was)
    requires a in now.steps && a.unit in rows && b in now.steps && b.unit in a.dependencies
    ensures !b.action.Quarantine?
  {
    RowsAreThePlannedWrites(load, was, now, rows);
    var s :| s in now.steps && Writes(s) && s.unit == a.unit;
    EvolvedKeepsUnits(was, now);
    SameUnitSameStep(now.steps, s, a);
    var i :| 0 <= i < |now.steps| && now.steps[i] == a;
    assert SameOrQuarantined(was.steps[i], a);
    assert was.steps[i] in was.steps;
    assert G.DependsOn(was.steps, a.unit, b.unit);
    BoundStepsShareFate(load, was, now, rows, a, b);
  }

  lemma {:induction false} SameUnitSameStep(steps: seq<Step>, a: Step, b: Step)
    requires Distinct(Units(steps)) && a in steps && b in steps && a.unit == b.unit
    ensures a == b
  {
    var i :| 0 <= i < |steps| && steps[i] == a;
    var j :| 0 <= j < |steps| && steps[j] == b;
    assert Units(steps)[i] == Units(steps)[j];
  }

  // ---------------------------------------------------------------------------
  // Counts of the receipt
  // ---------------------------------------------------------------------------

  function RecordsOf(steps: seq<Step>): set<string>
  {
    set s | s in steps :: s.record
  }

  function Rejected(steps: seq<Step>): set<string>
  {
    set s | s in steps && s.action.Quarantine? :: s.record
  }

  /** The planner copies the source record of a unit from its origin. */
  ghost predicate RecordsFromOrigins(load: Load, steps: seq<Step>)
  {
    forall s :: s in steps ==> G.From(load.origins, s.unit, s.record)
  }

  /** Every source record is loaded whole or rejected whole, and the two counts of the
      receipt add up to the number of records. */
  lemma {:induction false} RecordsAreLoadedOrRejected(load: Load, was: Plan, now: Plan, rows: seq<string>)
    requires Loaded(load, was, now, rows) && RecordsFromOrigins(load, was.steps)
    ensures forall s :: s in now.steps ==> (s.action.Quarantine? <==> s.record in Rejected(now.steps))
    ensures RecordsOf(now.steps) == RecordsOf(was.steps)
    ensures |RecordsOf(now.steps) - Rejected(now.steps)| + |Rejected(now.steps)| == |RecordsOf(was.steps)|
  {
    forall a, b | a in now.steps && b in now.steps && a.record == b.record
      ensures a.action.Quarantine? <==> b.action.Quarantine?
    {
      OriginOfStep(load, was, now, a);
      OriginOfStep(load, was, now, b);
      assert G.SameRecord(load.origins, a.unit, b.unit);
      BoundStepsShareFate(load, was, now, rows, a, b);
    }
    EvolvedKeepsRecords(was, now);
    SplitCount(RecordsOf(now.steps), Rejected(now.steps));
  }

  lemma {:induction false} OriginOfStep(load: Load, was: Plan, now: Plan, s: Step)
    requires Evolved(was, now) && RecordsFromOrigins(load, was.steps) && s in now.steps
    ensures G.From(load.origins, s.unit, s.record)
  {
    var i :| 0 <= i < |now.steps| && now.steps[i] == s;
    assert was.steps[i] in was.steps && SameOrQuarantined(was.steps[i], s);
  }

  lemma {:induction false} EvolvedKeepsRecords(was: Plan, now: Plan)
    requires Evolved(was, now)
    ensures RecordsOf(now.steps) == RecordsOf(was.steps)
  {
    forall r | r in RecordsOf(now.steps)
      ensures r in RecordsOf(was.steps)
    {
      var i :| 0 <= i < |now.steps| && now.steps[i].record == r;
      assert SameOrQuarantined(was.steps[i], now.steps[i]) && was.steps[i] in was.steps;
    }
    forall r | r in RecordsOf(was.steps)
      ensures r in RecordsOf(now.steps)
    {
      var i :| 0 <= i < |was.steps| && was.steps[i].record == r;
      assert SameOrQuarantined(was.steps[i], now.steps[i]) && now.steps[i] in now.steps;
    }
  }

  lemma {:induction false} SplitCount<T>(all: set<T>, part: set<T>)
    requires part <= all
    ensures |all - part| + |part| == |all|
  {
    assert all == (all - part) + part;
  }

  /** `planned_inserts` and its like: the steps of one action. */
  function Planned(steps: seq<Step>, action: StepAction, n: nat): nat
    requires n <= |steps|
  {
    if n == 0 then 0 else Planned(steps, action, n - 1) + if steps[n - 1].action == action then 1 else 0
  }

  lemma {:induction false} ExpectedIsPlanned(steps: seq<Step>, n: nat)
    requires n <= |steps|
    ensures Expected(steps, None, n) == Planned(steps, Insert, n) + Planned(steps, Update, n)
  {
    if n > 0 {
      ExpectedIsPlanned(steps, n - 1);
    }
  }

  /** The number of rows is the sum of the receipt's inserted and updated counts. */
  lemma {:induction false} RowCountIsInsertedPlusUpdated(load: Load, was: Plan, now: Plan, rows: seq<string>)
    requires Loaded(load, was, now, rows) && Ordered(was)
    ensures |rows| == Expected(now.steps, None, |now.steps|)
    ensures |rows| == Planned(now.steps, Insert, |now.steps|) + Planned(now.steps, Update, |now.steps|)
  {
    ExpectedIsPlanned(now.steps, |now.steps|);
    RowsAreThePlannedWrites(load, was, now, rows);
    EvolvedKeepsUnits(was, now);
    var written := Units(Selected(now.steps, None));
    SelectedUnitsDistinct(now.steps, None);
    ExpectedCountsSelected(now.steps, None);
    forall u
      ensures u in written <==> WritesUnit(now.steps, u)
    {
      AllSelectedUnits(now.steps, u);
    }
    assert Elements(rows) == Elements(written);
    CountDetectsDuplicates(rows);
    CountDetectsDuplicates(written);
  }

  lemma {:induction false} AllSelectedUnits(steps: seq<Step>, u: string)
    ensures u in Units(Selected(steps, None)) <==> WritesUnit(steps, u)
  {
    var selected := Selected(steps, None);
    if u in Units(selected) {
      var i :| 0 <= i < |selected| && Units(selected)[i] == u;
      SelectedAreSteps(steps, None, selected[i]);
    }
    if WritesUnit(steps, u) {
      var s :| s in steps && Writes(s) && s.unit == u;
      SelectedAreSteps(steps, None, s);
      UnitOfStep(selected, s);
    }
  }

  lemma {:induction false} ExpectedCountsSelected(steps: seq<Step>, chosen: Option<set<string>>)
    ensures Expected(steps, chosen, |steps|) == |Selected(steps, chosen)|
    decreases |steps|
  {
    if |steps| > 0 {
      var front := steps[..|steps| - 1];
      ExpectedCountsSelected(front, chosen);
      ExpectedOfPrefix(front, steps, chosen, |front|);
    }
  }

  lemma {:induction false} ExpectedOfPrefix(front: seq<Step>, steps: seq<Step>, chosen: Option<set<string>>, n: nat)
    requires n <= |front| && front <= steps
    ensures Expected(front, chosen, n) == Expected(steps, chosen, n)
  {
    if n > 0 {
      ExpectedOfPrefix(front, steps, chosen, n - 1);
    }
  }
}
