/** Execution plans of the loader: ordered steps over target units. */
module LoadPlans {
  import opened Collections

  datatype StepAction = Insert | Update | Skip | Quarantine

  datatype Step = Step(
    unit: string, record: string, table: string,
    columns: seq<string>, identity: seq<string>, updates: seq<string>,
    dependencies: seq<string>, action: StepAction, codes: set<string>)

  datatype Plan = Plan(tableOrder: seq<string>, steps: seq<Step>, blockers: seq<string>)

  function Units(steps: seq<Step>): seq<string>
  {
    seq(|steps|, i requires 0 <= i < |steps| => steps[i].unit)
  }

  predicate Writes(s: Step)
  {
    s.action.Insert? || s.action.Update?
  }

  /** Units are distinct and every dependency names an earlier step. */
  ghost predicate Ordered(plan: Plan)
  {
    && Distinct(Units(plan.steps))
    && (forall i, d :: 0 <= i < |plan.steps| && d in plan.steps[i].dependencies ==> EarlierUnit(plan.steps, i, d))
    && (forall i :: 0 <= i < |plan.steps| ==> plan.steps[i].table in plan.tableOrder)
  }

  ghost predicate EarlierUnit(steps: seq<Step>, i: int, d: string)
  {
    exists j :: 0 <= j < i && j < |steps| && steps[j].unit == d
  }

  method ValidateOrdered(plan: Plan) returns (ok: bool)
    ensures ok <==> Ordered(plan)
  {
    var seen: set<string> := {};
    for i := 0 to |plan.steps|
      invariant forall u :: u in seen <==> EarlierUnit(plan.steps, i, u)
      invariant forall j, k :: 0 <= j < k < i ==> plan.steps[j].unit != plan.steps[k].unit
      invariant forall k, d :: 0 <= k < i && d in plan.steps[k].dependencies ==> EarlierUnit(plan.steps, k, d)
      invariant forall j :: 0 <= j < i ==> plan.steps[j].table in plan.tableOrder
    {
      var step := plan.steps[i];
      if step.unit in seen {
        var j :| 0 <= j < i && plan.steps[j].unit == step.unit;
        assert Units(plan.steps)[j] == Units(plan.steps)[i];
        return false;
      }
      if !(Elements(step.dependencies) <= seen) {
        var d :| d in step.dependencies && d !in seen;
        assert !EarlierUnit(plan.steps, i, d);
        return false;
      }
      if step.table !in plan.tableOrder {
        return false;
      }
      forall d | d in step.dependencies
        ensures EarlierUnit(plan.steps, i, d)
      {
        assert d in Elements(step.dependencies);
      }
      forall u | EarlierUnit(plan.steps, i + 1, u)
        ensures EarlierUnit(plan.steps, i, u) || u == step.unit
      {
        var j :| 0 <= j < i + 1 && plan.steps[j].unit == u;
        assert j < i || j == i;
      }
      seen := seen + {step.unit};
    }
    return true;
  }
}
