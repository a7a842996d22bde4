/** Every action of every attempt keeps the protocol invariant. */
module LoadProtocolProof {
  import opened Wrappers
  import opened Collections
  import opened LoadContracts
  import opened LoadClient
  import opened Ledger
  import opened LoadProtocol

  /** Facts about the flags of a client that come from its history. */
  lemma {:induction false} ClientFacts(request: Request, log: seq<Event>, c: Client)
    requires After(request, log) == Some(c)
    ensures c.commitStarted ==> c.point.Committing? || Outside(c.point)
    ensures c.point == Committing ==> c.commitStarted
    ensures c.outcome.Some? <==> c.point == Finished
  {
    FlagsRemember(request, log);
  }

  /** The part of the database's demands that concerns the attempt's own transaction. */
  ghost predicate GrantedLocally(a: AttemptId, at: Attempt, e: Event)
  {
    && (e.StateChecked? || e.LockTaken? || e.MarkerRead? || e.Wrote? || e.AuditAppended? || e.MarkerInserted? ==> at.server.Open?)
    && (e.StateChecked? ==> at.isolation == ReadCommitted)
    && (e.Wrote? ==> Distinct(at.server.rows + Tagged(a, e.units)))
    && (e.GroupUndone? ==> at.server.Open? && e.keep <= |at.server.rows|)
    && (e.Summarized? ==> at.server.Open? && e.receipt.inserted + e.receipt.updated == |at.server.rows|)
    && (e.CommitAcknowledged? ==> at.server.Durable?)
    && (e.MarkerInserted? ==> at.client.receipt.Some?)
    && (e.MarkerRead? && e.found.Some? ==> e.found.value.replayed)
  }

  function Moved(a: AttemptId, at: Attempt, e: Event, snapshot: Option<map<string, Marker>>): Attempt
    requires Legal(at.request, at.client, e)
  {
    at.(
      log := at.log + [e],
      client := Advance(at.request, at.client, e),
      server := ServerAfter(a, at, e),
      snapshot := snapshot,
      holdsLock := at.holdsLock || e.LockTaken?,
      clear := at.clear || (e.MarkerRead? && e.found.None?))
  }

  /** What the step lemmas use and keep; the history enters only through the flags. */
  ghost predicate Kept(a: AttemptId, at: Attempt)
  {
    ClientPart(at) && ReceiptPart(at.client) && (at.server.Open? ==> BufferOk(a, at))
  }

  ghost predicate Core(a: AttemptId, at: Attempt)
  {
    && Kept(a, at)
    && (at.client.commitStarted ==> at.client.point.Committing? || Outside(at.client.point))
    && (at.client.point.Committing? ==> at.client.commitStarted)
    && (at.client.outcome.Some? <==> at.client.point.Finished?)
  }

  lemma {:induction false} RowsStayDistinct(a: AttemptId, rows: seq<Row>, keep: nat)
    requires AllTagged(a, rows) && Distinct(rows) && keep <= |rows|
    ensures AllTagged(a, rows[..keep]) && Distinct(rows[..keep])
  {
  }

  lemma {:induction false} MoreRowsTagged(a: AttemptId, rows: seq<Row>, units: seq<string>)
    requires AllTagged(a, rows)
    ensures AllTagged(a, rows + Tagged(a, units))
  {
  }

  lemma {:induction false} OpeningKeeps(a: AttemptId, at: Attempt, e: Event, snapshot: Option<map<string, Marker>>)
    requires Core(a, at) && Legal(at.request, at.client, e) && GrantedLocally(a, at, e)
    requires e.DriverMissing? || e.Begin? || e.StateChecked?
    ensures Kept(a, Moved(a, at, e, snapshot))
  {
  }

  lemma {:induction false} ClaimingKeeps(a: AttemptId, at: Attempt, e: Event, snapshot: Option<map<string, Marker>>)
    requires Core(a, at) && Legal(at.request, at.client, e) && GrantedLocally(a, at, e)
    requires e.LedgerSkipped? || e.LockTaken? || e.MarkerRead? || e.ReplayVerified?
    ensures Kept(a, Moved(a, at, e, snapshot))
  {
  }

  lemma {:induction false} WritingKeeps(a: AttemptId, at: Attempt, e: Event, snapshot: Option<map<string, Marker>>)
    requires Core(a, at) && Legal(at.request, at.client, e) && GrantedLocally(a, at, e)
    requires e.Wrote? || e.GroupUndone?
    ensures Kept(a, Moved(a, at, e, snapshot))
  {
    if e.Wrote? {
      MoreRowsTagged(a, at.server.rows, e.units);
    } else {
      RowsStayDistinct(a, at.server.rows, e.keep);
    }
  }

  lemma {:induction false} SealingKeeps(a: AttemptId, at: Attempt, e: Event, snapshot: Option<map<string, Marker>>)
    requires Core(a, at) && Legal(at.request, at.client, e) && GrantedLocally(a, at, e)
    requires e.Summarized? || e.AuditAppended? || e.MarkerInserted?
    ensures Kept(a, Moved(a, at, e, snapshot))
  {
  }

  lemma {:induction false} CommittingKeeps(a: AttemptId, at: Attempt, e: Event, snapshot: Option<map<string, Marker>>)
    requires Core(a, at) && Legal(at.request, at.client, e) && GrantedLocally(a, at, e)
    requires e.CommitStarted? || e.CommitAcknowledged?
    ensures Kept(a, Moved(a, at, e, snapshot))
  {
  }

  lemma {:induction false} LeavingKeepsClient(at: Attempt, next: Attempt)
    requires ClientPart(at) && ReceiptPart(at.client) && at.client.outcome.None?
    requires OnlyLeft(at.client, next.client) && next == at.(log := next.log, client := next.client, snapshot := next.snapshot)
    ensures ClientPart(next) && ReceiptPart(next.client)
  {
  }

  lemma {:induction false} LeavingKeepsBuffer(a: AttemptId, at: Attempt, next: Attempt)
    requires at.server.Open? && BufferOk(a, at) && InsideTry(at.client.point)
    requires at.client.commitStarted ==> at.client.point.Committing?
    requires OnlyLeft(at.client, next.client) && next == at.(log := next.log, client := next.client, snapshot := next.snapshot)
    ensures BufferOk(a, next)
  {
  }

  lemma {:induction false} FailureKeeps(a: AttemptId, at: Attempt, e: Event, snapshot: Option<map<string, Marker>>)
    requires Core(a, at) && Legal(at.request, at.client, e) && e.Raised?
    ensures Kept(a, Moved(a, at, e, snapshot))
  {
    LeavingKeepsClient(at, Moved(a, at, e, snapshot));
    if at.server.Open? {
      LeavingKeepsBuffer(a, at, Moved(a, at, e, snapshot));
    }
  }

  lemma {:induction false} CleanupKeeps(a: AttemptId, at: Attempt, e: Event, snapshot: Option<map<string, Marker>>)
    requires Core(a, at) && Legal(at.request, at.client, e) && GrantedLocally(a, at, e)
    requires e.CleanedUp? || e.CleanupRaised?
    ensures Kept(a, Moved(a, at, e, snapshot))
  {
  }

  lemma {:induction false} ConclusionKeeps(a: AttemptId, at: Attempt, e: Event, snapshot: Option<map<string, Marker>>)
    requires Core(a, at) && Legal(at.request, at.client, e) && GrantedLocally(a, at, e)
    requires e.Concluded? || e.RollbackEventRaised?
    ensures Kept(a, Moved(a, at, e, snapshot))
  {
  }

  lemma {:induction false} EventKeeps(a: AttemptId, at: Attempt, e: Event, snapshot: Option<map<string, Marker>>)
    requires Core(a, at) && Legal(at.request, at.client, e) && GrantedLocally(a, at, e)
    ensures Kept(a, Moved(a, at, e, snapshot))
  {
    if e.Raised? {
      FailureKeeps(a, at, e, snapshot);
    } else if e.CleanedUp? || e.CleanupRaised? {
      CleanupKeeps(a, at, e, snapshot);
    } else if e.Concluded? || e.RollbackEventRaised? {
      ConclusionKeeps(a, at, e, snapshot);
    } else if e.CommitStarted? || e.CommitAcknowledged? {
      CommittingKeeps(a, at, e, snapshot);
    } else if e.Summarized? || e.AuditAppended? || e.MarkerInserted? {
      SealingKeeps(a, at, e, snapshot);
    } else if e.Wrote? || e.GroupUndone? {
      WritingKeeps(a, at, e, snapshot);
    } else if e.DriverMissing? || e.Begin? || e.StateChecked? {
      OpeningKeeps(a, at, e, snapshot);
    } else {
      ClaimingKeeps(a, at, e, snapshot);
    }
  }

  lemma {:induction false} LocalStep(a: AttemptId, at: Attempt, e: Event, snapshot: Option<map<string, Marker>>)
    requires LocalOk(a, at) && Legal(at.request, at.client, e) && GrantedLocally(a, at, e)
    ensures LocalOk(a, Moved(a, at, e, snapshot))
  {
    ClientFacts(at.request, at.log, at.client);
    AfterOneMore(at.request, at.log, e);
    EventKeeps(a, at, e, snapshot);
  }

  // ---------------------------------------------------------------------------
  // Client steps
  // ---------------------------------------------------------------------------

  lemma {:induction false} ClaimIsReplay(bytes: Receipt -> nat, row: Option<Marker>, request: Request)
    ensures var reply := Claim(bytes, row, request);
            reply.Ok? ==>
              if reply.value.None? then row.None?
              else row.Some? && row.value.binding == request.binding && reply.value == Some(Replayed(row.value.payload, request.runId))
  {
  }

  lemma {:induction false} GrantedIsLocal(cfg: Config, w: World, a: AttemptId, at: Attempt, e: Event)
    requires Granted(cfg, w, a, at, e)
    ensures GrantedLocally(a, at, e)
  {
    if e.MarkerRead? {
      ClaimIsReplay(cfg.bytes, Lookup(VisibleMarkers(w, at), at.request.key.value), at.request);
    }
  }

  function SnapshotAfter(w: World, at: Attempt): Option<map<string, Marker>>
  {
    if at.snapshot.None? && at.server.Open? then Some(w.markers) else at.snapshot
  }

  lemma {:induction false} StepIsMove(cfg: Config, w: World, a: AttemptId, e: Event)
    requires Enabled(cfg, w, a, ClientStep(e))
    ensures var w' := StepClient(cfg, w, a, e); var at := w.attempts[a];
            && w' == w.(locks := LocksAfter(cfg, w, a, at, e), attempts := w'.attempts)
            && w'.attempts == w.attempts[a := Moved(a, at, e, SnapshotAfter(w, at))]
  {
  }

  /** Nobody else's lock is touched. */
  lemma {:induction false} OthersKeepLocks(cfg: Config, w: World, a: AttemptId, e: Event, b: AttemptId, bt: Attempt)
    requires a in w.attempts && b != a && Granted(cfg, w, a, w.attempts[a], e)
    requires LockShared(cfg, w.locks, b, bt)
    ensures LockShared(cfg, LocksAfter(cfg, w, a, w.attempts[a], e), b, bt)
  {
  }

  lemma {:induction false} OwnLock(cfg: Config, w: World, a: AttemptId, e: Event)
    requires a in w.attempts
    requires Legal(w.attempts[a].request, w.attempts[a].client, e) && Granted(cfg, w, a, w.attempts[a], e)
    requires LockShared(cfg, w.locks, a, w.attempts[a]) && ClientPart(w.attempts[a])
    ensures LockShared(cfg, LocksAfter(cfg, w, a, w.attempts[a], e), a, Moved(a, w.attempts[a], e, SnapshotAfter(w, w.attempts[a])))
  {
  }

  /** The claim ran under READ COMMITTED, so it saw the markers as they are now. */
  lemma {:induction false} OwnClaim(cfg: Config, w: World, a: AttemptId, e: Event)
    requires a in w.attempts
    requires Legal(w.attempts[a].request, w.attempts[a].client, e) && Granted(cfg, w, a, w.attempts[a], e)
    requires LocalOk(a, w.attempts[a])
    requires ClearPart(w.markers, w.attempts[a]) && ReplayPart(w.markers, w.attempts[a])
    ensures ClearPart(w.markers, Moved(a, w.attempts[a], e, SnapshotAfter(w, w.attempts[a])))
    ensures ReplayPart(w.markers, Moved(a, w.attempts[a], e, SnapshotAfter(w, w.attempts[a])))
  {
    var at := w.attempts[a];
    ClientFacts(at.request, at.log, at.client);
    if e.MarkerRead? {
      ClaimSeesMarkers(cfg, w, a, e);
      OwnMarkerRead(a, at, e, SnapshotAfter(w, at), w.markers);
    } else {
      OtherEventsKeepClear(a, at, e, SnapshotAfter(w, at), w.markers);
      OtherEventsKeepReplay(a, at, e, SnapshotAfter(w, at), w.markers);
    }
  }

  lemma {:induction false} ClaimSeesMarkers(cfg: Config, w: World, a: AttemptId, e: Event)
    requires a in w.attempts && e.MarkerRead? && Granted(cfg, w, a, w.attempts[a], e)
    requires w.attempts[a].isolation == ReadCommitted
    ensures e.found.None? ==> w.attempts[a].request.key.value !in w.markers
    ensures e.found.Some? ==>
              && w.attempts[a].request.key.value in w.markers
              && w.markers[w.attempts[a].request.key.value].binding == w.attempts[a].request.binding
              && e.found == Some(Replayed(w.markers[w.attempts[a].request.key.value].payload, w.attempts[a].request.runId))
  {
    var at := w.attempts[a];
    assert VisibleMarkers(w, at) == w.markers;
    ClaimIsReplay(cfg.bytes, Lookup(w.markers, at.request.key.value), at.request);
  }

  lemma {:induction false} OwnMarkerRead(a: AttemptId, at: Attempt, e: Event, snapshot: Option<map<string, Marker>>,
                                         markers: map<string, Marker>)
    requires e.MarkerRead? && Legal(at.request, at.client, e) && at.request.key.Some? && !at.client.committed
    requires e.found.None? ==> at.request.key.value !in markers
    requires e.found.Some? ==>
               && at.request.key.value in markers && markers[at.request.key.value].binding == at.request.binding
               && e.found == Some(Replayed(markers[at.request.key.value].payload, at.request.runId))
    requires ClearPart(markers, at)
    ensures ClearPart(markers, Moved(a, at, e, snapshot)) && ReplayPart(markers, Moved(a, at, e, snapshot))
  {
  }

  /** Only reading a marker makes an attempt a replay. */
  lemma {:induction false} NoNewReplay(request: Request, c: Client, e: Event)
    requires !e.MarkerRead? && Legal(request, c, e) && ReceiptPart(c)
    requires c.point == Committing ==> c.commitStarted
    requires Advance(request, c, e).committed && !Advance(request, c, e).commitStarted
    ensures c.committed && !c.commitStarted && Advance(request, c, e).receipt == c.receipt
  {
  }

  lemma {:induction false} OtherEventsKeepReplay(a: AttemptId, at: Attempt, e: Event, snapshot: Option<map<string,
                                                 Marker>>, markers: map<string, Marker>)
    requires !e.MarkerRead? && Legal(at.request, at.client, e) && ReceiptPart(at.client)
    requires ReplayPart(markers, at) && (at.client.point == Committing ==> at.client.commitStarted)
    ensures ReplayPart(markers, Moved(a, at, e, snapshot))
  {
    var next := Advance(at.request, at.client, e);
    if next.committed && !next.commitStarted {
      NoNewReplay(at.request, at.client, e);
    }
  }

  lemma {:induction false} OtherEventsKeepClear(a: AttemptId, at: Attempt, e: Event, snapshot: Option<map<string,
                                                Marker>>, markers: map<string, Marker>)
    requires !e.MarkerRead? && Legal(at.request, at.client, e) && ClearPart(markers, at) && (e.Begin? ==> !at.clear)
    ensures ClearPart(markers, Moved(a, at, e, snapshot))
  {
  }

  lemma {:induction false} ClientStepShared(cfg: Config, w: World, a: AttemptId, e: Event, b: AttemptId)
    requires Inv(cfg, w) && Enabled(cfg, w, a, ClientStep(e)) && b in w.attempts
    ensures var w' := StepClient(cfg, w, a, e); SharedOk(cfg, w', b, w'.attempts[b])
  {
    StepIsMove(cfg, w, a, e);
    assert SharedOk(cfg, w, b, w.attempts[b]) && LocalOk(b, w.attempts[b]);
    if b == a {
      OwnLock(cfg, w, a, e);
      OwnClaim(cfg, w, a, e);
    } else {
      OthersKeepLocks(cfg, w, a, e, b, w.attempts[b]);
    }
  }

  /** A durable attempt keeps its receipt, and a client step makes nobody durable. */
  lemma {:induction false} DurableIsStable(a: AttemptId, at: Attempt, e: Event, snapshot: Option<map<string, Marker>>)
    requires LocalOk(a, at) && Legal(at.request, at.client, e)
    ensures var next := Moved(a, at, e, snapshot);
            && (next.server.Durable? <==> at.server.Durable?)
            && (at.server.Durable? ==> next.client.receipt == at.client.receipt)
            && next.request == at.request
  {
    ClientFacts(at.request, at.log, at.client);
  }

  /** Only attempt a differs, and as far as durability goes not even that one. */
  ghost predicate SameDurables(w: World, w': World, a: AttemptId)
  {
    && w'.markers == w.markers && w'.publishers == w.publishers && w'.rows == w.rows && w'.audited == w.audited
    && w'.attempts.Keys == w.attempts.Keys + {a}
    && (forall b :: b in w.attempts && b != a ==> w'.attempts[b] == w.attempts[b])
    && (a !in w.attempts ==> !w'.attempts[a].server.Durable?)
    && (a in w.attempts ==>
         && w'.attempts[a].request == w.attempts[a].request
         && (w'.attempts[a].server.Durable? <==> w.attempts[a].server.Durable?)
         && (w.attempts[a].server.Durable? ==> w'.attempts[a].client.receipt == w.attempts[a].client.receipt))
  }

  lemma {:induction false} SameDurablesKeepLedger(w: World, w': World, a: AttemptId)
    requires LedgerOk(w) && SameDurables(w, w', a)
    ensures LedgerOk(w')
  {
  }

  lemma {:induction false} SameDurablesKeepRows(w: World, w': World, a: AttemptId)
    requires RowsOk(w) && SameDurables(w, w', a)
    ensures RowsOk(w')
  {
  }

  lemma {:induction false} OneAttemptMoves(w: World, w': World, a: AttemptId)
    requires AllLocalOk(w) && w'.attempts.Keys == w.attempts.Keys + {a} && LocalOk(a, w'.attempts[a])
    requires forall b :: b in w.attempts && b != a ==> w'.attempts[b] == w.attempts[b]
    ensures AllLocalOk(w')
  {
  }

  lemma {:induction false} ClientStepKeepsInv(cfg: Config, w: World, a: AttemptId, e: Event)
    requires Inv(cfg, w) && Enabled(cfg, w, a, ClientStep(e))
    ensures Inv(cfg, StepClient(cfg, w, a, e))
  {
    var w', at := StepClient(cfg, w, a, e), w.attempts[a];
    StepIsMove(cfg, w, a, e);
    GrantedIsLocal(cfg, w, a, at, e);
    LocalStep(a, at, e, SnapshotAfter(w, at));
    OneAttemptMoves(w, w', a);
    forall b | b in w'.attempts
      ensures SharedOk(cfg, w', b, w'.attempts[b])
    {
      ClientStepShared(cfg, w, a, e, b);
    }
    DurableIsStable(a, at, e, SnapshotAfter(w, at));
    SameDurablesKeepLedger(w, w', a);
    SameDurablesKeepRows(w, w', a);
  }

  // ---------------------------------------------------------------------------
  // Arrivals and the server's own steps
  // ---------------------------------------------------------------------------

  lemma {:induction false} NewcomerIsLocal(a: AttemptId, request: Request, isolation: Isolation)
    ensures LocalOk(a, Attempt(request, isolation, [], Start, NoTransaction, None, false, false))
  {
  }

  lemma {:induction false} ArrivalKeepsInv(cfg: Config, w: World, a: AttemptId, request: Request, isolation: Isolation)
    requires Inv(cfg, w) && a !in w.attempts
    ensures Inv(cfg, Apply(cfg, w, a, Arrive(request, isolation)))
  {
    var w' := Apply(cfg, w, a, Arrive(request, isolation));
    NewcomerIsLocal(a, request, isolation);
    OneAttemptMoves(w, w', a);
    SameDurablesKeepLedger(w, w', a);
    SameDurablesKeepRows(w, w', a);
    forall b | b in w'.attempts
      ensures SharedOk(cfg, w', b, w'.attempts[b])
    {
      if b != a {
        assert SharedOk(cfg, w, b, w.attempts[b]);
      }
    }
  }

  lemma {:induction false} DiscardedIsLocal(a: AttemptId, at: Attempt)
    requires LocalOk(a, at) && at.server.Open?
    ensures LocalOk(a, at.(server := Discarded))
  {
  }

  /** Giving up one's locks leaves those of the others. */
  lemma {:induction false} WithoutKeepsOthers(cfg: Config, locks: map<int, AttemptId>, a: AttemptId, b: AttemptId,
                                              bt: Attempt)
    requires LockShared(cfg, locks, b, bt) && b != a
    ensures LockShared(cfg, Without(locks, a), b, bt)
  {
  }

  lemma {:induction false} AbortKeepsShared(cfg: Config, w: World, a: AttemptId, b: AttemptId)
    requires a in w.attempts && b in w.attempts && SharedOk(cfg, w, b, w.attempts[b])
    ensures SharedOk(cfg, Abort(w, a), b, Abort(w, a).attempts[b])
  {
    if b != a {
      WithoutKeepsOthers(cfg, w.locks, a, b, w.attempts[b]);
    }
  }

  lemma {:induction false} AbortKeepsDurables(w: World, a: AttemptId)
    requires a in w.attempts && w.attempts[a].server.Open?
    ensures SameDurables(w, Abort(w, a), a)
  {
  }

  lemma {:induction false} AbortKeepsInv(cfg: Config, w: World, a: AttemptId)
    requires Inv(cfg, w) && a in w.attempts && w.attempts[a].server.Open?
    ensures Inv(cfg, Abort(w, a))
  {
    var w' := Abort(w, a);
    AbortKeepsDurables(w, a);
    SameDurablesKeepLedger(w, w', a);
    SameDurablesKeepRows(w, w', a);
    DiscardedIsLocal(a, w.attempts[a]);
    OneAttemptMoves(w, w', a);
    forall b | b in w'.attempts
      ensures SharedOk(cfg, w', b, w'.attempts[b])
    {
      AbortKeepsShared(cfg, w, a, b);
    }
  }

  lemma {:induction false} CountRowsAppend(rows: seq<Row>, more: seq<Row>, a: AttemptId)
    ensures CountRows(rows + more, a) == CountRows(rows, a) + CountRows(more, a)
    decreases |more|
  {
    if |more| == 0 {
      assert rows + more == rows;
    } else {
      var front := more[..|more| - 1];
      CountRowsAppend(rows, front, a);
      assert (rows + more)[..|rows + more| - 1] == rows + front;
    }
  }

  lemma {:induction false} CountAll(rows: seq<Row>, a: AttemptId, b: AttemptId)
    requires forall i :: 0 <= i < |rows| ==> rows[i].attempt == a
    ensures CountRows(rows, b) == if a == b then |rows| else 0
    decreases |rows|
  {
    if |rows| > 0 {
      CountAll(rows[..|rows| - 1], a, b);
    }
  }

  lemma {:induction false} CountNone(rows: seq<Row>, a: AttemptId)
    requires forall i :: 0 <= i < |rows| ==> rows[i].attempt != a
    ensures CountRows(rows, a) == 0
    decreases |rows|
  {
    if |rows| > 0 {
      CountNone(rows[..|rows| - 1], a);
    }
  }

  /** What an open transaction with COMMIT on its way contains. */
  ghost predicate Complete(w: World, a: AttemptId)
  {
    && a in w.attempts && w.attempts[a].server.Open?
    && var at := w.attempts[a];
       && at.client.receipt.Some?
       && |at.server.rows| == at.client.receipt.value.inserted + at.client.receipt.value.updated
       && (forall i :: 0 <= i < |at.server.rows| ==> at.server.rows[i].attempt == a)
       && Distinct(at.server.rows)
       && (at.server.audited <==> at.request.audit)
       && (at.server.marker.Some? <==> at.request.key.Some?)
       && (at.request.key.Some? ==>
            && at.server.marker.value == MarkerOf(at.request, at.client.receipt.value)
            && at.request.key.value !in w.markers && at.holdsLock)
  }

  lemma {:induction false} CommitIsComplete(cfg: Config, w: World, a: AttemptId)
    requires Inv(cfg, w) && Enabled(cfg, w, a, ServerCommits)
    ensures Complete(w, a)
  {
    assert LocalOk(a, w.attempts[a]) && SharedOk(cfg, w, a, w.attempts[a]);
  }

  /** Two open transactions cannot both hold the lock of one key. */
  lemma {:induction false} NobodyElseIsClear(cfg: Config, w: World, a: AttemptId, b: AttemptId)
    requires Inv(cfg, w) && Complete(w, a) && b in w.attempts && b != a
    ensures ClearPart(Commit(w, a).markers, w.attempts[b])
  {
    var at, bt := w.attempts[a], w.attempts[b];
    assert SharedOk(cfg, w, a, at) && SharedOk(cfg, w, b, bt) && LocalOk(b, bt);
  }

  lemma {:induction false} StoredMarkersStay(w: World, a: AttemptId, b: AttemptId)
    requires Complete(w, a) && b in w.attempts && ReplayPart(w.markers, w.attempts[b])
    ensures ReplayPart(Commit(w, a).markers, w.attempts[b])
  {
  }

  lemma {:induction false} CommitKeepsShared(cfg: Config, w: World, a: AttemptId, b: AttemptId)
    requires Inv(cfg, w) && Enabled(cfg, w, a, ServerCommits) && b in w.attempts
    ensures SharedOk(cfg, Commit(w, a), b, Commit(w, a).attempts[b])
  {
    CommitIsComplete(cfg, w, a);
    assert SharedOk(cfg, w, b, w.attempts[b]);
    StoredMarkersStay(w, a, b);
    if b != a {
      NobodyElseIsClear(cfg, w, a, b);
      WithoutKeepsOthers(cfg, w.locks, a, b, w.attempts[b]);
    }
  }

  /** The marker of a key with its publisher. */
  ghost predicate Published(w: World, k: string)
  {
    && k in w.markers && k in w.publishers && w.publishers[k] in w.attempts
    && var at := w.attempts[w.publishers[k]];
       && at.request.key == Some(k) && at.server.Durable? && at.client.receipt.Some?
       && w.markers[k] == MarkerOf(at.request, at.client.receipt.value)
  }

  lemma {:induction false} CommitKeepsPublished(w: World, a: AttemptId, k: string)
    requires LedgerOk(w) && Complete(w, a) && k in Commit(w, a).publishers
    ensures Published(Commit(w, a), k)
  {
  }

  lemma {:induction false} CommitKeepsLedger(w: World, a: AttemptId)
    requires LedgerOk(w) && Complete(w, a)
    ensures LedgerOk(Commit(w, a))
  {
    var w', at := Commit(w, a), w.attempts[a];
    assert w'.attempts[a].request == at.request && w'.attempts[a].client == at.client;
    forall k | k in w'.publishers
      ensures Published(w', k)
    {
      CommitKeepsPublished(w, a, k);
    }
  }

  lemma {:induction false} CommitKeepsCounts(w: World, a: AttemptId, b: AttemptId)
    requires RowsOk(w) && Complete(w, a)
    requires b in w.attempts && (b == a || w.attempts[b].server.Durable?)
    ensures w.attempts[b].client.receipt.Some?
    ensures CountRows(w.rows + w.attempts[a].server.rows, b) ==
            w.attempts[b].client.receipt.value.inserted + w.attempts[b].client.receipt.value.updated
  {
    var buffer := w.attempts[a].server.rows;
    CountRowsAppend(w.rows, buffer, b);
    CountAll(buffer, a, b);
    if b == a {
      CountNone(w.rows, a);
    }
  }

  lemma {:induction false} CommitKeepsRowsDurable(w: World, a: AttemptId)
    requires RowsDurable(w) && Complete(w, a)
    ensures RowsDurable(Commit(w, a))
  {
    var w', buffer := Commit(w, a), w.attempts[a].server.rows;
    forall i | 0 <= i < |w'.rows|
      ensures w'.rows[i].attempt in w'.attempts && w'.attempts[w'.rows[i].attempt].server.Durable?
    {
      assert w'.rows[i] == if i < |w.rows| then w.rows[i] else buffer[i - |w.rows|];
    }
  }

  lemma {:induction false} CommitKeepsRowsDistinct(w: World, a: AttemptId)
    requires Distinct(w.rows) && RowsDurable(w) && Complete(w, a)
    ensures Distinct(Commit(w, a).rows)
  {
    var buffer, all := w.attempts[a].server.rows, Commit(w, a).rows;
    forall i, j | 0 <= i < j < |all|
      ensures all[i] != all[j]
    {
      if i < |w.rows| <= j {
        assert all[i].attempt != a && all[j] == buffer[j - |w.rows|];
      }
    }
  }

  lemma {:induction false} CommitKeepsRows(w: World, a: AttemptId)
    requires RowsOk(w) && Complete(w, a)
    ensures RowsOk(Commit(w, a))
  {
    CommitKeepsRowsDurable(w, a);
    CommitKeepsRowsDistinct(w, a);
    var w' := Commit(w, a);
    forall b | b in w'.attempts && w'.attempts[b].server.Durable?
      ensures w'.attempts[b].client.receipt.Some?
      ensures CountRows(w'.rows, b) == w'.attempts[b].client.receipt.value.inserted + w'.attempts[b].client.receipt.value.updated
    {
      CommitKeepsCounts(w, a, b);
    }
    assert w'.audited == if w.attempts[a].request.audit then w.audited + {a} else w.audited;
  }

  lemma {:induction false} DurableIsLocal(a: AttemptId, at: Attempt)
    requires LocalOk(a, at) && at.server.Open? && at.client.commitStarted
    ensures LocalOk(a, at.(server := Durable))
  {
  }

  lemma {:induction false} CommitKeepsInv(cfg: Config, w: World, a: AttemptId)
    requires Inv(cfg, w) && Enabled(cfg, w, a, ServerCommits)
    ensures Inv(cfg, Apply(cfg, w, a, ServerCommits))
  {
    var w' := Commit(w, a);
    CommitIsComplete(cfg, w, a);
    CommitKeepsLedger(w, a);
    CommitKeepsRows(w, a);
    forall b | b in w'.attempts
      ensures SharedOk(cfg, w', b, w'.attempts[b])
    {
      CommitKeepsShared(cfg, w, a, b);
    }
    DurableIsLocal(a, w.attempts[a]);
    OneAttemptMoves(w, w', a);
  }

  /** Every step keeps the invariant, and so every reachable world satisfies it. */
  lemma {:induction false} StepKeepsInv(cfg: Config, w: World, a: AttemptId, act: Action)
    requires Inv(cfg, w) && Enabled(cfg, w, a, act)
    ensures Inv(cfg, Apply(cfg, w, a, act))
  {
    match act
    case Arrive(request, isolation) => ArrivalKeepsInv(cfg, w, a, request, isolation);
    case ClientStep(e) => ClientStepKeepsInv(cfg, w, a, e);
    case ServerCommits => CommitKeepsInv(cfg, w, a);
    case ServerAborts => AbortKeepsInv(cfg, w, a);
  }

  lemma {:induction false} ReachableInv(cfg: Config, run: seq<(AttemptId, Action)>)
    requires RunOf(cfg, run).Some?
    ensures Inv(cfg, RunOf(cfg, run).value)
    decreases |run|
  {
    if |run| > 0 {
      var front := run[..|run| - 1];
      var (a, act) := run[|run| - 1];
      ReachableInv(cfg, front);
      StepKeepsInv(cfg, RunOf(cfg, front).value, a, act);
    }
  }
}
