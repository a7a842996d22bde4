/** What the turns of the write loop come to: a group is quarantined for a refusal of its own,
    and for nothing else. */
module QuarantineAccount {
  import opened Collections
  import opened LoadPlans
  import opened QuarantineWrite
  import G = DependencyGroups

  /** A reply for which the database puts a group in quarantine. */
  ghost predicate Refuses(reply: Reply)
  {
    reply.SqlError? && OfConstraint(reply.code)
  }

  ghost function Refusals(replies: nat -> Reply, from: nat, end: nat): nat
    requires from <= end
    decreases end
  {
    if from == end then 0 else Refusals(replies, from, end - 1) + if Refuses(replies(end - 1)) then 1 else 0
  }

  lemma {:induction false} RefusalsSplit(replies: nat -> Reply, from: nat, mid: nat, end: nat)
    requires from <= mid <= end
    ensures Refusals(replies, from, end) == Refusals(replies, from, mid) + Refusals(replies, mid, end)
    decreases end
  {
    if mid < end {
      RefusalsSplit(replies, from, mid, end - 1);
    }
  }

  lemma {:induction false} AcceptedHasNone(replies: nat -> Reply, from: nat, end: nat)
    requires from <= end && AllAccepted(replies, from, end)
    ensures Refusals(replies, from, end) == 0
    decreases end
  {
    if from < end {
      assert replies(end - 1).Accepted?;
      AcceptedHasNone(replies, from, end - 1);
    }
  }

  lemma {:induction false} OneRefusal(replies: nat -> Reply, from: nat, to: nat, k: nat)
    requires RefusedAt(replies, from, to, k)
    ensures Refusals(replies, from, to) == 1
  {
    AcceptedHasNone(replies, from, k);
    AcceptedHasNone(replies, k + 1, to);
    RefusalsSplit(replies, from, k + 1, to);
  }

  /** The group was not excluded by the given plan, and is by the returned one. */
  predicate Excluded(was: Plan, now: Plan, units: set<string>)
  {
    !HasQuarantine(was.steps, units) && HasQuarantine(now.steps, units)
  }

  function CountExcluded(was: Plan, now: Plan, groups: seq<seq<string>>, n: nat): nat
    requires n <= |groups|
  {
    if n == 0 then 0
    else CountExcluded(was, now, groups, n - 1) + if Excluded(was, now, Elements(groups[n - 1])) then 1 else 0
  }

  lemma {:induction false} KeptIsUnchanged(was: Plan, now: Plan, units: set<string>)
    requires Evolved(was, now) && KeptIn(was, now, units)
    ensures Unchanged(was, now, units)
    ensures !Excluded(was, now, units)
  {
    EvolvedKeepsUnits(was, now);
    SameExclusion(was, now, units);
  }

  lemma {:induction false} StepOfUnit(steps: seq<Step>, u: string) returns (i: nat)
    requires u in Units(steps)
    ensures i < |steps| && steps[i].unit == u && steps[i] in steps
  {
    i :| 0 <= i < |steps| && Units(steps)[i] == u;
  }

  lemma {:induction false} RefusedIsExcluded(was: Plan, now: Plan, units: set<string>, code: string, u: string)
    requires Evolved(was, now) && ExcludedIn(was, now, units, code)
    requires u in units && u in Units(was.steps) && !HasQuarantine(was.steps, units)
    ensures Excluded(was, now, units)
  {
    var i := StepOfUnit(was.steps, u);
    EvolvedKeepsUnits(was, now);
    assert Units(now.steps)[i] == u;
    assert now.steps[i] in now.steps;
  }

  /** In its turn a group brings one refusal if it ends excluded, and none otherwise. */
  lemma {:induction false} TurnCounts(load: Load, was: Plan, now: Plan, units: set<string>, replies: nat -> Reply, from: nat,
                                      to: nat, u: string)
    requires Evolved(was, now) && GroupSettled(load, was, now, units, replies, from, to) && from <= to
    requires u in units && u in Units(was.steps)
    ensures Refusals(replies, from, to) == if Excluded(was, now, units) then 1 else 0
  {
    if HasQuarantine(was.steps, units) || AllAccepted(replies, from, to) {
      AcceptedHasNone(replies, from, to);
      if !HasQuarantine(was.steps, units) {
        KeptIsUnchanged(was, now, units);
      }
    } else {
      var k :| RefusedAt(replies, from, to, k) && ExcludedIn(was, now, units, replies(k).code);
      OneRefusal(replies, from, to, k);
      RefusedIsExcluded(was, now, units, replies(k).code, u);
    }
  }

  lemma {:induction false} UnitOfGroup(load: Load, steps: seq<Step>, groups: seq<seq<string>>, g: nat) returns (u: string)
    requires G.IsGrouping(steps, load.origins, load.links, groups) && g < |groups|
    ensures u in Elements(groups[g]) && u in Units(steps)
  {
    assert G.IsComponentOf(G.Bonds(steps, load.origins, load.links), Elements(groups[g]));
    u :| u in groups[g];
    assert G.Grouped(groups, u);
  }

  /** Up to any turn there are as many newly excluded groups as refusals. */
  lemma {:induction false} TurnsCount(load: Load, was: Plan, now: Plan, groups: seq<seq<string>>, spans: seq<nat>, n: nat,
                                      replies: nat -> Reply)
    requires Evolved(was, now) && G.IsGrouping(was.steps, load.origins, load.links, groups)
    requires n <= |groups| && Turns(load, was, now, groups, spans, |groups|, replies)
    ensures spans[0] <= spans[n] && CountExcluded(was, now, groups, n) == Refusals(replies, spans[0], spans[n])
  {
    if n > 0 {
      TurnsCount(load, was, now, groups, spans, n - 1, replies);
      assert Turn(load, was, now, groups, spans, n - 1, replies);
      var u := UnitOfGroup(load, was.steps, groups, n - 1);
      TurnCounts(load, was, now, Elements(groups[n - 1]), replies, spans[n - 1], spans[n], u);
      RefusalsSplit(replies, spans[0], spans[n - 1], spans[n]);
    }
  }

  /** The loop excludes exactly as many groups as the database refused: no group is excluded
      for the refusal of another one, and no refusal goes unheeded. */
  lemma {:induction false} OneGroupPerRefusal(load: Load, was: Plan, now: Plan, rows: seq<string>, replies: nat -> Reply,
                                              from: nat, to: nat)
    requires Loaded(load, was, now, rows) && Accounted(load, was, now, replies, from, to)
    ensures from <= to && exists groups ::
              && G.IsGrouping(was.steps, load.origins, load.links, groups)
              && CountExcluded(was, now, groups, |groups|) == Refusals(replies, from, to)
  {
    var groups, spans :|
      && G.IsGrouping(was.steps, load.origins, load.links, groups) && |groups| * |was.steps| <= load.maxEvaluations
      && RunsThrough(load, was, now, groups, spans, replies, from, to);
    TurnsCount(load, was, now, groups, spans, |groups|, replies);
  }

  /** A step that the given plan does not exclude with its group ends quarantined exactly when
      the replies in the turn of its group hold a refusal, and then with its code added. */
  lemma {:induction false} ExcludedByItsOwnRefusal(load: Load, was: Plan, now: Plan, groups: seq<seq<string>>, spans: seq<nat>,
                                                   replies: nat -> Reply, g: nat, i: nat)
    requires Evolved(was, now) && Turns(load, was, now, groups, spans, |groups|, replies)
    requires g < |groups| && i < |was.steps| && was.steps[i].unit in groups[g]
    requires !HasQuarantine(was.steps, Elements(groups[g]))
    ensures now.steps[i].action.Quarantine? <==> exists k :: spans[g] <= k < spans[g + 1] && Refuses(replies(k))
    ensures forall k :: spans[g] <= k < spans[g + 1] && Refuses(replies(k)) ==>
              now.steps[i] == was.steps[i].(action := Quarantine, codes := was.steps[i].codes + {replies(k).code})
    ensures !now.steps[i].action.Quarantine? ==> now.steps[i] == was.steps[i]
  {
    var units := Elements(groups[g]);
    assert Turn(load, was, now, groups, spans, g, replies);
    assert was.steps[i] in was.steps && was.steps[i].unit in units;
    if !AllAccepted(replies, spans[g], spans[g + 1]) {
      var k :| RefusedAt(replies, spans[g], spans[g + 1], k) && ExcludedIn(was, now, units, replies(k).code);
      assert Refuses(replies(k));
      forall j | spans[g] <= j < spans[g + 1] && Refuses(replies(j))
        ensures j == k
      {
        OnlyRefusal(replies, spans[g], spans[g + 1], k, j);
      }
    }
  }

  lemma {:induction false} OnlyRefusal(replies: nat -> Reply, from: nat, to: nat, k: nat, j: nat)
    requires RefusedAt(replies, from, to, k) && from <= j < to && Refuses(replies(j))
    ensures j == k
  {
  }

  lemma {:induction false} SpansRise(load: Load, was: Plan, now: Plan, groups: seq<seq<string>>, spans: seq<nat>, n: nat,
                                     m: nat, replies: nat -> Reply)
    requires n <= m <= |groups| && Turns(load, was, now, groups, spans, |groups|, replies)
    ensures spans[n] <= spans[m]
    decreases m - n
  {
    if n < m {
      assert Turn(load, was, now, groups, spans, n, replies);
      SpansRise(load, was, now, groups, spans, n + 1, m, replies);
    }
  }

  lemma {:induction false} AcceptedTurnKeeps(load: Load, was: Plan, now: Plan, groups: seq<seq<string>>, spans: seq<nat>,
                                             replies: nat -> Reply, g: nat)
    requires g < |groups| && Turns(load, was, now, groups, spans, |groups|, replies)
    requires AllAccepted(replies, spans[0], spans[|groups|])
    ensures KeptIn(was, now, Elements(groups[g]))
  {
    SpansRise(load, was, now, groups, spans, 0, g, replies);
    SpansRise(load, was, now, groups, spans, g + 1, |groups|, replies);
    assert Turn(load, was, now, groups, spans, g, replies);
    assert AllAccepted(replies, spans[g], spans[g + 1]);
  }

  lemma {:induction false} AcceptedStepStays(load: Load, was: Plan, now: Plan, groups: seq<seq<string>>, spans: seq<nat>,
                                             replies: nat -> Reply, i: nat)
    requires G.IsGrouping(was.steps, load.origins, load.links, groups) && i < |was.steps|
    requires Turns(load, was, now, groups, spans, |groups|, replies) && AllAccepted(replies, spans[0], spans[|groups|])
    ensures i < |now.steps| && now.steps[i] == was.steps[i]
  {
    UnitOfStep(was.steps, was.steps[i]);
    var g := GroupOfUnit(load, was.steps, groups, was.steps[i].unit);
    AcceptedTurnKeeps(load, was, now, groups, spans, replies, g);
  }

  /** If the database accepts everything, the plan comes back as it was given. */
  lemma {:induction false} AcceptedPlanComesBack(load: Load, was: Plan, now: Plan, rows: seq<string>, replies: nat -> Reply,
                                                 from: nat, to: nat)
    requires Loaded(load, was, now, rows) && Accounted(load, was, now, replies, from, to)
    requires AllAccepted(replies, from, to)
    ensures now == was
  {
    var groups, spans :|
      && G.IsGrouping(was.steps, load.origins, load.links, groups) && |groups| * |was.steps| <= load.maxEvaluations
      && RunsThrough(load, was, now, groups, spans, replies, from, to);
    forall i | 0 <= i < |was.steps|
      ensures now.steps[i] == was.steps[i]
    {
      AcceptedStepStays(load, was, now, groups, spans, replies, i);
    }
    assert now.steps == was.steps;
  }
}
