/** Safety of the loader over whole runs: publication at most once per key, replays of
    the one stored receipt, honest outcomes, and reported counts that match the rows. */
module LoadProtocolTheorems {
  import opened Wrappers
  import opened LoadContracts
  import opened LoadClient
  import opened LoadProtocol
  import opened LoadProtocolProof

  function KeyOf(w: World, a: AttemptId): Option<string>
  {
    if a in w.attempts then w.attempts[a].request.key else None
  }

  predicate SharedKey(w: World, a: AttemptId, b: AttemptId)
  {
    KeyOf(w, a).Some? && KeyOf(w, a) == KeyOf(w, b)
  }

  /** In every run, all published rows of one key come from a single attempt, whose
      marker, and whose audit event if it is audited, were published with them, and under
      one key each unit is published at most once. */
  lemma {:induction false} PublishedAtMostOnce(cfg: Config, run: seq<(AttemptId, Action)>, w: World)
    requires RunOf(cfg, run) == Some(w)
    ensures forall i, j | 0 <= i < |w.rows| && 0 <= j < |w.rows| ::
              SharedKey(w, w.rows[i].attempt, w.rows[j].attempt) ==> w.rows[i].attempt == w.rows[j].attempt
    ensures forall i :: 0 <= i < |w.rows| ==> PublishedWhole(w, w.rows[i].attempt)
    ensures forall i, j | 0 <= i < |w.rows| && 0 <= j < |w.rows| ::
              SharedKey(w, w.rows[i].attempt, w.rows[j].attempt) && w.rows[i].unit == w.rows[j].unit ==> i == j
  {
    ReachableInv(cfg, run);
    forall i, j | 0 <= i < |w.rows| && 0 <= j < |w.rows| && SharedKey(w, w.rows[i].attempt, w.rows[j].attempt)
      ensures w.rows[i].attempt == w.rows[j].attempt
      ensures w.rows[i].unit == w.rows[j].unit ==> i == j
    {
      OnePublisher(w, w.rows[i].attempt, w.rows[j].attempt);
    }
    forall i | 0 <= i < |w.rows|
      ensures PublishedWhole(w, w.rows[i].attempt)
    {
      PublisherIsWhole(w, w.rows[i].attempt);
    }
  }

  lemma {:induction false} OnePublisher(w: World, a: AttemptId, b: AttemptId)
    requires LedgerOk(w) && SharedKey(w, a, b) && w.attempts[a].server.Durable? && w.attempts[b].server.Durable?
    ensures a == b
  {
  }

  lemma {:induction false} PublisherIsWhole(w: World, a: AttemptId)
    requires LedgerOk(w) && AuditMatches(w) && a in w.attempts && w.attempts[a].server.Durable?
    ensures PublishedWhole(w, a)
  {
  }

  /** The attempt's marker and audit event are published, as its request demands. */
  ghost predicate PublishedWhole(w: World, a: AttemptId)
  {
    && a in w.attempts
    && (w.attempts[a].request.key.Some? ==>
         var k := w.attempts[a].request.key.value;
         k in w.markers && k in w.publishers && w.publishers[k] == a)
    && (w.attempts[a].request.audit <==> a in w.audited)
  }

  /** Every attempt that was told of an earlier commit got the receipt that the one
      publisher of its key stored, and it had the publisher's binding. */
  lemma {:induction false} ReplaysReturnStoredReceipt(cfg: Config, run: seq<(AttemptId, Action)>, w: World,
                                                      a: AttemptId)
    requires RunOf(cfg, run) == Some(w) && a in w.attempts
    requires w.attempts[a].client.outcome.Some? && w.attempts[a].client.outcome.value.status == Committed
    requires !w.attempts[a].client.commitStarted
    ensures var at := w.attempts[a];
            && at.request.key.Some? && at.request.key.value in w.publishers
            && var p := w.publishers[at.request.key.value];
               && p in w.attempts && w.attempts[p].server.Durable? && w.attempts[p].client.receipt.Some?
               && w.attempts[p].request.binding == at.request.binding
               && at.client.outcome.value.result.Some?
               && IsReplayOf(w.attempts[p].client.receipt.value, at.client.outcome.value.result.value, at.request.runId)
               && SafeSummary(at.client.outcome.value.result.value) ==
                  Summary(true, 0, 0, w.attempts[p].client.receipt.value.skipped, w.attempts[p].client.receipt.value.quarantined)
  {
    ReachableInv(cfg, run);
    var at := w.attempts[a];
    assert LocalOk(a, at) && SharedOk(cfg, w, a, at);
    FlagsRemember(at.request, at.log);
    assert LedgerOk(w);
    PublisherStoredFresh(w.publishers[at.request.key.value], w.attempts[w.publishers[at.request.key.value]]);
  }

  /** What a durable attempt stored is a receipt of its own, no replay. */
  lemma {:induction false} PublisherStoredFresh(p: AttemptId, at: Attempt)
    requires LocalOk(p, at) && at.server.Durable?
    ensures at.client.receipt.Some? && !at.client.receipt.value.replayed && at.client.receipt.value.attemptRun.None?
  {
    ClientFacts(at.request, at.log, at.client);
  }

  /** Reusing a key with another binding publishes nothing. */
  lemma {:induction false} ForeignBindingPublishesNothing(cfg: Config, run: seq<(AttemptId, Action)>, w: World,
                                                          a: AttemptId)
    requires RunOf(cfg, run) == Some(w) && a in w.attempts
    requires w.attempts[a].request.key.Some? && w.attempts[a].request.key.value in w.markers
    requires w.markers[w.attempts[a].request.key.value].binding != w.attempts[a].request.binding
    ensures CountRows(w.rows, a) == 0 && !w.attempts[a].server.Durable?
  {
    ReachableInv(cfg, run);
    CountNone(w.rows, a);
  }

  lemma {:induction false} HonestAttempt(a: AttemptId, at: Attempt)
    requires LocalOk(a, at) && at.client.outcome.Some?
    ensures var o := at.client.outcome.value;
            && (o.status == Committed ==> at.client.committed)
            && (o.status.RolledBack? || o.status.Cancelled? ==> !at.client.commitStarted && at.client.cleanupOk)
            && (o.status.RolledBack? ==> !FactsOf(at.log).interrupted)
            && (at.client.commitStarted ==> o.status.Committed? || o.status.Unknown?)
  {
    FlagsRemember(at.request, at.log);
  }

  /** What a finished attempt reports about its own transaction is true of the database:
      a commit is durable or stored under the key, a rollback or cancellation left nothing
      and cannot be overtaken, and a durable commit is never reported otherwise than as
      committed or unknown. */
  lemma {:induction false} ReportsAreTrue(cfg: Config, run: seq<(AttemptId, Action)>, w: World, a: AttemptId)
    requires RunOf(cfg, run) == Some(w) && a in w.attempts && w.attempts[a].client.outcome.Some?
    ensures var at := w.attempts[a]; var o := at.client.outcome.value;
            && (o.status == Committed ==> at.server.Durable? || (at.request.key.Some? && at.request.key.value in w.markers))
            && (o.status.RolledBack? || o.status.Cancelled? ==>
                 !at.server.Durable? && !at.server.Open? && CountRows(w.rows, a) == 0 && a !in w.audited)
            && (at.server.Durable? ==> o.status.Committed? || o.status.Unknown?)
  {
    ReachableInv(cfg, run);
    var at := w.attempts[a];
    assert LocalOk(a, at) && SharedOk(cfg, w, a, at);
    HonestAttempt(a, at);
    FinishedPoint(a, at);
    if !at.server.Durable? {
      CountNone(w.rows, a);
    }
  }

  lemma {:induction false} FinishedPoint(a: AttemptId, at: Attempt)
    requires LocalOk(a, at) && at.client.outcome.Some?
    ensures at.client.point.Finished?
  {
    ClientFacts(at.request, at.log, at.client);
  }

  // ---------------------------------------------------------------------------
  // Conservation of the reported counts
  // ---------------------------------------------------------------------------

  /** The inserts and updates that the log summary of a finished attempt claims. */
  function Reported(at: Attempt): nat
  {
    if at.client.outcome.Some? && at.client.outcome.value.result.Some? then
      var summary := SafeSummary(at.client.outcome.value.result.value);
      summary.inserted + summary.updated
    else 0
  }

  ghost function SumReported(w: World, some: set<AttemptId>): nat
    requires some <= w.attempts.Keys
  {
    if some == {} then 0
    else
      var a :| a in some;
      Reported(w.attempts[a]) + SumReported(w, some - {a})
  }

  lemma {:induction false} OnlyOneReports(w: World, some: set<AttemptId>, p: AttemptId)
    requires some <= w.attempts.Keys
    requires forall a :: a in some && a != p ==> Reported(w.attempts[a]) == 0
    ensures SumReported(w, some) == if p in some then Reported(w.attempts[p]) else 0
    decreases |some|
  {
    if some != {} {
      var a :| a in some && SumReported(w, some) == Reported(w.attempts[a]) + SumReported(w, some - {a});
      OnlyOneReports(w, some - {a}, p);
    }
  }

  ghost function Sharing(w: World, key: string): set<AttemptId>
  {
    set a | a in w.attempts && w.attempts[a].request.key == Some(key)
  }

  /** The published rows of a key. */
  ghost function CountKeyRows(w: World, rows: seq<Row>, key: string): nat
  {
    if |rows| == 0 then 0
    else CountKeyRows(w, rows[..|rows| - 1], key) + if KeyOf(w, rows[|rows| - 1].attempt) == Some(key) then 1 else 0
  }

  lemma {:induction false} KeyRowsAreThePublishers(w: World, rows: seq<Row>, key: string, p: AttemptId)
    requires KeyOf(w, p) == Some(key)
    requires forall i :: 0 <= i < |rows| && KeyOf(w, rows[i].attempt) == Some(key) ==> rows[i].attempt == p
    ensures CountKeyRows(w, rows, key) == CountRows(rows, p)
    decreases |rows|
  {
    if |rows| > 0 {
      var front := rows[..|rows| - 1];
      assert forall i :: 0 <= i < |front| ==> front[i] == rows[i];
      KeyRowsAreThePublishers(w, front, key, p);
    }
  }

  /** Only the publisher of a key can report inserts or updates. */
  lemma {:induction false} OthersReportNothing(cfg: Config, w: World, a: AttemptId, key: string)
    requires Inv(cfg, w) && a in w.attempts && w.attempts[a].request.key == Some(key)
    requires !w.attempts[a].server.Durable?
    ensures Reported(w.attempts[a]) == 0
  {
    var at := w.attempts[a];
    assert LocalOk(a, at) && SharedOk(cfg, w, a, at);
    FlagsRemember(at.request, at.log);
  }

  lemma {:induction false} PublisherReportsItsRows(cfg: Config, w: World, p: AttemptId)
    requires Inv(cfg, w) && p in w.attempts && w.attempts[p].server.Durable?
    ensures Reported(w.attempts[p]) <= CountRows(w.rows, p)
    ensures w.attempts[p].client.committed && w.attempts[p].client.outcome.Some? ==> Reported(w.attempts[p]) == CountRows(w.rows, p)
  {
    var at := w.attempts[p];
    assert LocalOk(p, at);
    FlagsRemember(at.request, at.log);
  }

  /** Added over all attempts with one key, the reported inserts and updates never exceed
      the rows published under it, and equal them once the publisher was acknowledged
      and has returned. */
  lemma {:induction false} ReportedNeverExceedsPublished(cfg: Config, run: seq<(AttemptId, Action)>, w: World,
                                                         key: string)
    requires RunOf(cfg, run) == Some(w)
    ensures SumReported(w, Sharing(w, key)) <= CountKeyRows(w, w.rows, key)
    ensures key in w.publishers && w.publishers[key] in w.attempts &&
            w.attempts[w.publishers[key]].client.committed && w.attempts[w.publishers[key]].client.outcome.Some? ==>
            SumReported(w, Sharing(w, key)) == CountKeyRows(w, w.rows, key)
  {
    ReachableInv(cfg, run);
    if key in w.publishers {
      PublishedKeyIsReported(cfg, w, key);
    } else {
      UnpublishedKeyIsNotReported(cfg, w, key);
    }
  }

  lemma {:induction false} RowsAreThePublishers(w: World, key: string, p: AttemptId)
    requires LedgerOk(w) && RowsDurable(w) && key in w.publishers && w.publishers[key] == p
    ensures KeyOf(w, p) == Some(key) && p in w.attempts && w.attempts[p].server.Durable?
    ensures forall i :: 0 <= i < |w.rows| && KeyOf(w, w.rows[i].attempt) == Some(key) ==> w.rows[i].attempt == p
    ensures forall a :: a in Sharing(w, key) && a != p ==> !w.attempts[a].server.Durable?
  {
  }

  lemma {:induction false} PublishedKeyIsReported(cfg: Config, w: World, key: string)
    requires Inv(cfg, w) && key in w.publishers
    ensures var p := w.publishers[key];
            && p in w.attempts && w.attempts[p].server.Durable?
            && SumReported(w, Sharing(w, key)) == Reported(w.attempts[p]) <= CountRows(w.rows, p) == CountKeyRows(w, w.rows, key)
            && (w.attempts[p].client.committed && w.attempts[p].client.outcome.Some? ==> Reported(w.attempts[p]) == CountRows(w.rows, p))
  {
    var p, some := w.publishers[key], Sharing(w, key);
    RowsAreThePublishers(w, key, p);
    forall a | a in some && a != p
      ensures Reported(w.attempts[a]) == 0
    {
      OthersReportNothing(cfg, w, a, key);
    }
    OnlyOneReports(w, some, p);
    KeyRowsAreThePublishers(w, w.rows, key, p);
    PublisherReportsItsRows(cfg, w, p);
  }

  lemma {:induction false} UnpublishedKeyIsNotReported(cfg: Config, w: World, key: string)
    requires Inv(cfg, w) && key !in w.publishers
    ensures SumReported(w, Sharing(w, key)) == 0
  {
    var some := Sharing(w, key);
    forall a | a in some
      ensures Reported(w.attempts[a]) == 0
    {
      OthersReportNothing(cfg, w, a, key);
    }
    if p :| p in some {
      OnlyOneReports(w, some, p);
    }
  }

  // ---------------------------------------------------------------------------
  // Markers are forever
  // ---------------------------------------------------------------------------

  lemma {:induction false} CommitKeepsMarker(w: World, a: AttemptId, k: string)
    requires Complete(w, a) && k in w.markers
    ensures k in Commit(w, a).markers && Commit(w, a).markers[k] == w.markers[k]
  {
  }

  lemma {:induction false} ClientStepKeepsMarkers(cfg: Config, w: World, a: AttemptId, e: Event)
    requires Enabled(cfg, w, a, ClientStep(e))
    ensures StepClient(cfg, w, a, e).markers == w.markers
  {
  }

  lemma {:induction false} StepKeepsMarkers(cfg: Config, w: World, a: AttemptId, act: Action, k: string)
    requires Inv(cfg, w) && Enabled(cfg, w, a, act) && k in w.markers
    ensures k in Apply(cfg, w, a, act).markers && Apply(cfg, w, a, act).markers[k] == w.markers[k]
  {
    match act {
      case ServerCommits =>
        CommitIsComplete(cfg, w, a);
        CommitKeepsMarker(w, a, k);
      case ClientStep(e) => ClientStepKeepsMarkers(cfg, w, a, e);
      case _ =>
    }
  }

  lemma {:induction false} RunOneMore(cfg: Config, run: seq<(AttemptId, Action)>, a: AttemptId, act: Action)
    ensures RunOf(cfg, run + [(a, act)]) ==
            var before := RunOf(cfg, run);
            if before.Some? && Enabled(cfg, before.value, a, act) then Some(Apply(cfg, before.value, a, act)) else None
  {
    assert (run + [(a, act)])[..|run|] == run;
  }

  /** Whatever happens later, a stored marker stays as it is. */
  lemma {:induction false} MarkersAreForever(cfg: Config, run: seq<(AttemptId, Action)>, later: seq<(AttemptId,
                                             Action)>, k: string)
    requires RunOf(cfg, run + later).Some? && RunOf(cfg, run).Some? && k in RunOf(cfg, run).value.markers
    ensures k in RunOf(cfg, run + later).value.markers
    ensures RunOf(cfg, run + later).value.markers[k] == RunOf(cfg, run).value.markers[k]
    decreases |later|
  {
    if |later| == 0 {
      assert run + later == run;
    } else {
      var front := later[..|later| - 1];
      var (a, act) := later[|later| - 1];
      assert run + later == run + front + [(a, act)];
      RunOneMore(cfg, run + front, a, act);
      MarkersAreForever(cfg, run, front, k);
      ReachableInv(cfg, run + front);
      StepKeepsMarkers(cfg, RunOf(cfg, run + front).value, a, act, k);
    }
  }
}
