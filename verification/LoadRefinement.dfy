/** The write loop inside the protocol: what the loop does to its transaction is a run of the
    protocol, and the counts of the plan it returns are those the protocol lets it report. */
module LoadRefinement {
  import opened Wrappers
  import opened Collections
  import opened LoadContracts
  import opened LoadClient
  import opened LoadPlans
  import opened LoadProtocol
  import opened LoadProtocolTheorems
  import opened WriteBatches
  import opened WriteHistory
  import Q = QuarantineWrite

  type Run = seq<(AttemptId, Action)>

  /** The client steps of one attempt that the effects of its write loop stand for. */
  function StepsOf(a: AttemptId, history: seq<Effect>): Run
  {
    seq(|history|, i requires 0 <= i < |history| => (a, ClientStep(EventOf(history[i]))))
  }

  /** An attempt in its write loop, with the rows of some units in its transaction. */
  ghost predicate WritesIn(w: World, a: AttemptId, at: Attempt, rows: seq<string>)
  {
    && a in w.attempts && at.client.point == Writing && at.server.Open?
    && w.attempts[a] == at.(log := w.attempts[a].log, snapshot := w.attempts[a].snapshot, server := w.attempts[a].server)
    && w.attempts[a].server == at.server.(rows := Tagged(a, rows))
  }

  lemma {:induction false} TaggedAppend(a: AttemptId, rows: seq<string>, units: seq<string>)
    ensures Tagged(a, rows + units) == Tagged(a, rows) + Tagged(a, units)
  {
  }

  lemma {:induction false} TaggedDistinct(a: AttemptId, rows: seq<string>)
    requires Distinct(rows)
    ensures Distinct(Tagged(a, rows))
  {
  }

  lemma {:induction false} TaggedPrefix(a: AttemptId, rows: seq<string>, keep: nat)
    requires keep <= |rows|
    ensures Tagged(a, rows[..keep]) == Tagged(a, rows)[..keep]
  {
  }

  /** One statement or rollback of the loop is granted, and does to the buffer what it did
      to the transaction of the loop. */
  lemma {:induction false} EffectIsGranted(cfg: Config, w: World, a: AttemptId, at: Attempt, rows: seq<string>, effect: Effect)
    requires WritesIn(w, a, at, rows) && MayFollow(rows, effect)
    ensures Enabled(cfg, w, a, ClientStep(EventOf(effect)))
    ensures WritesIn(StepClient(cfg, w, a, EventOf(effect)), a, at, Applied(rows, effect))
  {
    match effect
    case Put(units) =>
      TaggedAppend(a, rows, units);
      TaggedDistinct(a, rows + units);
    case Undone(keep) =>
      TaggedPrefix(a, rows, keep);
  }

  lemma {:induction false} EffectExtendsRun(cfg: Config, run: Run, a: AttemptId, at: Attempt, rows: seq<string>, effect: Effect)
    requires RunOf(cfg, run).Some? && WritesIn(RunOf(cfg, run).value, a, at, rows) && MayFollow(rows, effect)
    ensures var longer := RunOf(cfg, run + [(a, ClientStep(EventOf(effect)))]);
            longer.Some? && WritesIn(longer.value, a, at, Applied(rows, effect))
  {
    EffectIsGranted(cfg, RunOf(cfg, run).value, a, at, rows, effect);
    RunOneMore(cfg, run, a, ClientStep(EventOf(effect)));
  }

  lemma {:induction false} StepsOfNext(run: Run, a: AttemptId, history: seq<Effect>, effect: Effect)
    ensures run + StepsOf(a, history + [effect]) == run + StepsOf(a, history) + [(a, ClientStep(EventOf(effect)))]
  {
  }

  /** Every sound history of the write loop is a run of the protocol. */
  lemma {:induction false} WriteLoopIsARun(cfg: Config, run: Run, a: AttemptId, at: Attempt, history: seq<Effect>)
    requires RunOf(cfg, run).Some? && WritesIn(RunOf(cfg, run).value, a, at, []) && Sound(history)
    ensures RunOf(cfg, run + StepsOf(a, history)).Some?
    ensures WritesIn(RunOf(cfg, run + StepsOf(a, history)).value, a, at, RowsAfter(history))
    decreases |history|
  {
    if |history| == 0 {
      assert run + StepsOf(a, history) == run;
    } else {
      var front, last := history[..|history| - 1], history[|history| - 1];
      assert history == front + [last];
      OneMore(front, last);
      WriteLoopIsARun(cfg, run, a, at, front);
      EffectExtendsRun(cfg, run + StepsOf(a, front), a, at, RowsAfter(front), last);
      StepsOfNext(run, a, front, last);
    }
  }

  /** In either mode the rows in effect number the planned inserts and updates. */
  lemma {:induction false} RowsArePlanned(load: Q.Load, was: Plan, now: Plan, rows: seq<string>)
    requires Q.Result(load, was, now, rows) && Ordered(was)
    ensures |rows| == Q.Planned(now.steps, Insert, |now.steps|) + Q.Planned(now.steps, Update, |now.steps|)
  {
    if load.policy.quarantines {
      Q.RowCountIsInsertedPlusUpdated(load, was, now, rows);
    } else {
      Q.ExpectedCountsSelected(was.steps, None);
      Q.ExpectedIsPlanned(was.steps, |was.steps|);
    }
  }

  /** The receipt of this attempt about the plan that was written. */
  ghost predicate ReceiptOf(receipt: Receipt, request: Request, now: Plan)
  {
    && receipt.inserted == Q.Planned(now.steps, Insert, |now.steps|)
    && receipt.updated == Q.Planned(now.steps, Update, |now.steps|)
    && !receipt.replayed && receipt.attemptRun.None? && receipt.auditHead.None? && receipt.runId == request.runId
  }

  /** What is left of the attempt once it has reported its counts. */
  ghost predicate ReportedIn(w: World, a: AttemptId, at: Attempt, rows: seq<string>, receipt: Receipt)
  {
    && a in w.attempts && at.server.Open?
    && w.attempts[a].client == at.client.(point := Received, receipt := Some(receipt), plan := Some(receipt.planFingerprint))
    && w.attempts[a].server == at.server.(rows := Tagged(a, rows))
  }

  lemma {:induction false} SummaryIsGranted(cfg: Config, w: World, a: AttemptId, at: Attempt, rows: seq<string>, receipt: Receipt)
    requires WritesIn(w, a, at, rows) && |rows| == receipt.inserted + receipt.updated
    requires !receipt.replayed && receipt.attemptRun.None? && receipt.auditHead.None? && receipt.runId == at.request.runId
    ensures Enabled(cfg, w, a, ClientStep(Summarized(receipt)))
    ensures ReportedIn(StepClient(cfg, w, a, Summarized(receipt)), a, at, rows, receipt)
  {
  }

  /** From its write loop on, an attempt can take the steps of the loop and then report the
      counts of the written plan: the protocol demands nothing of an attempt that the loop
      does not keep. */
  lemma {:induction false} WrittenPlanIsReported(cfg: Config, run: Run, a: AttemptId, at: Attempt, load: Q.Load,
                                                 was: Plan, now: Plan, history: seq<Effect>, receipt: Receipt)
    requires RunOf(cfg, run).Some? && WritesIn(RunOf(cfg, run).value, a, at, [])
    requires Sound(history) && Q.Result(load, was, now, RowsAfter(history)) && Ordered(was)
    requires ReceiptOf(receipt, at.request, now)
    ensures var longer := RunOf(cfg, run + StepsOf(a, history) + [(a, ClientStep(Summarized(receipt)))]);
            longer.Some? && ReportedIn(longer.value, a, at, RowsAfter(history), receipt)
  {
    WriteLoopIsARun(cfg, run, a, at, history);
    RowsArePlanned(load, was, now, RowsAfter(history));
    ReportExtendsRun(cfg, run + StepsOf(a, history), a, at, RowsAfter(history), receipt);
  }

  lemma {:induction false} ReportExtendsRun(cfg: Config, run: Run, a: AttemptId, at: Attempt, rows: seq<string>, receipt: Receipt)
    requires RunOf(cfg, run).Some? && WritesIn(RunOf(cfg, run).value, a, at, rows)
    requires |rows| == receipt.inserted + receipt.updated
    requires !receipt.replayed && receipt.attemptRun.None? && receipt.auditHead.None? && receipt.runId == at.request.runId
    ensures var longer := RunOf(cfg, run + [(a, ClientStep(Summarized(receipt)))]);
            longer.Some? && ReportedIn(longer.value, a, at, rows, receipt)
  {
    SummaryIsGranted(cfg, RunOf(cfg, run).value, a, at, rows, receipt);
    RunOneMore(cfg, run, a, ClientStep(Summarized(receipt)));
  }

  /** A write loop that succeeds leaves a history with which the protocol lets its attempt
      report the counts of the plan that the loop returned. */
  method WriteInProtocol(tx: Q.Transaction, load: Q.Load, plan: Plan, ghost cfg: Config, ghost run: Run, ghost a: AttemptId,
                         ghost at: Attempt) returns (r: Result<Plan, string>)
    requires PolicyValid(load.policy) && Ordered(plan) && tx.written == [] && tx.history == []
    requires RunOf(cfg, run).Some? && WritesIn(RunOf(cfg, run).value, a, at, [])
    modifies tx
    ensures RunOf(cfg, run + StepsOf(a, tx.history)).Some?
    ensures WritesIn(RunOf(cfg, run + StepsOf(a, tx.history)).value, a, at, tx.written)
    ensures r.Ok? ==> forall receipt :: ReceiptOf(receipt, at.request, r.value) ==>
              RunOf(cfg, run + StepsOf(a, tx.history) + [(a, ClientStep(Summarized(receipt)))]).Some?
  {
    r := Q.WritePlan(tx, load, plan);
    WriteLoopIsARun(cfg, run, a, at, tx.history);
    if r.Ok? {
      forall receipt | ReceiptOf(receipt, at.request, r.value)
        ensures RunOf(cfg, run + StepsOf(a, tx.history) + [(a, ClientStep(Summarized(receipt)))]).Some?
      {
        WrittenPlanIsReported(cfg, run, a, at, load, plan, r.value, tx.history, receipt);
      }
    }
  }
}
