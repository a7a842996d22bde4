/** One attempt of the transactional loader, seen from the client: the local variables
    of the transaction routine as an automaton over what each await brings back, and
    the routine itself, which follows that automaton under every pattern of failures. */
module LoadClient {
  import opened Wrappers
  import opened LoadContracts
  import opened WriteHistory

  datatype Point =
    | Connecting | Opened | Checked | Claiming | Replaying
    | Writing | Received | Audited | Marked | Committing
    | Left | Cleaned | Finished

  /** How an await can fail: cancellation, a deadline, a coded refusal of the SDK or a
      database error already mapped to its code, and an exception that no except clause
      of the routine names. */
  datatype Failure = Cancellation | Timeout | Coded(code: string) | Unhandled

  datatype Event =
    | DriverMissing
    | Begin
    | StateChecked
    | LedgerSkipped
    | LockTaken
    | MarkerRead(found: Option<Receipt>)
    | ReplayVerified
    | Wrote(units: seq<string>)
    | GroupUndone(keep: nat)
    | Summarized(receipt: Receipt)
    | AuditAppended(head: string)
    | MarkerInserted
    | CommitStarted
    | CommitAcknowledged
    | Raised(failure: Failure)
    | CleanedUp(ok: bool, interrupted: bool)
    | CleanupRaised
    | RollbackEventRaised
    | Concluded(rollbackRecorded: bool, callerCancelling: bool)

  /** `escaping` says that an exception is on its way out through the cleanup. */
  datatype Client = Client(
    point: Point, commitStarted: bool, committed: bool, cancelled: bool, replayUnverified: bool, escaping: bool,
    code: Option<string>, receipt: Option<Receipt>, plan: Option<string>, cleanupOk: bool, outcome: Option<Outcome>)

  const Start := Client(Connecting, false, false, false, false, false, None, None, None, true, None)

  function EventOf(effect: Effect): Event
  {
    match effect
    case Put(units) => Wrote(units)
    case Undone(keep) => GroupUndone(keep)
  }

  /** The attempt has everything it must have before it may issue COMMIT. */
  predicate ReadyToCommit(request: Request, point: Point)
  {
    if request.key.Some? then point == Marked
    else if request.audit then point == Audited
    else point == Received
  }

  predicate InsideTry(point: Point)
  {
    !Outside(point)
  }

  predicate Outside(point: Point)
  {
    point.Left? || point.Cleaned? || point.Finished?
  }

  predicate Ended(point: Point)
  {
    point.Cleaned? || point.Finished?
  }

  /** The audit event of a rollback is written once the transaction is known to be over. */
  predicate WritesRollbackEvent(request: Request, c: Client)
  {
    !c.committed && !c.commitStarted && c.cleanupOk && request.audit && request.signer
  }

  predicate Legal(request: Request, c: Client, e: Event)
  {
    match e
    case DriverMissing => c.point == Connecting
    case Begin => c.point == Connecting
    case StateChecked => c.point == Opened
    case LedgerSkipped => c.point == Checked && request.key.None?
    case LockTaken => c.point == Checked && request.key.Some?
    case MarkerRead(_) => c.point == Claiming
    case ReplayVerified => c.point == Replaying && c.receipt.Some? && (request.audit ==> c.receipt.value.auditHead.Some?)
    case Wrote(_) => c.point == Writing
    case GroupUndone(_) => c.point == Writing
    case Summarized(r) => c.point == Writing && !r.replayed && r.attemptRun.None? && r.auditHead.None?
                          && r.runId == request.runId
    case AuditAppended(_) => c.point == Received && request.audit && c.receipt.Some?
    case MarkerInserted => c.point == (if request.audit then Audited else Received) && request.key.Some?
    case CommitStarted => ReadyToCommit(request, c.point)
    case CommitAcknowledged => c.point == Committing
    case Raised(_) => InsideTry(c.point)
    case CleanedUp(_, _) => c.point == Left
    case CleanupRaised => c.point == Left
    case RollbackEventRaised => c.point == Cleaned && !c.escaping && WritesRollbackEvent(request, c)
    case Concluded(_, _) => c.point == Cleaned && !c.escaping
  }

  /** The events after the body of the try statement. */
  predicate Leaving(e: Event)
  {
    e.Raised? || e.CleanedUp? || e.CleanupRaised? || e.RollbackEventRaised? || e.Concluded?
  }

  predicate IsFound(e: Event)
  {
    e.MarkerRead? && e.found.Some?
  }

  /** A failure leaves the try block and records why, and changes nothing else. */
  predicate OnlyLeft(c: Client, next: Client)
  {
    next == c.(point := Left, cancelled := next.cancelled, escaping := next.escaping, code := next.code)
  }

  /** The except clauses. */
  function Caught(c: Client, f: Failure): (next: Client)
    ensures OnlyLeft(c, next)
  {
    match f
    case Cancellation => c.(point := Left, cancelled := true)
    case Timeout => c.(point := Left, code := Some("PROCESSING_TIMEOUT"))
    case Coded(code) => c.(point := Left, code := Some(code))
    case Unhandled => c.(point := Left, escaping := true)
  }

  function Advance(request: Request, c: Client, e: Event): (next: Client)
    requires Legal(request, c, e)
    ensures Leaving(e) ==> next.committed == c.committed && next.commitStarted == c.commitStarted && next.receipt == c.receipt
    ensures next.commitStarted <==> c.commitStarted || e.CommitStarted?
    ensures next.committed <==> c.committed || e.CommitAcknowledged? || IsFound(e)
    ensures !IsFound(e) && !e.Summarized? && !e.AuditAppended? ==> next.receipt == c.receipt
  {
    match e
    case DriverMissing =>
      c.(point := Finished,
         outcome := Some(Outcome(Failed, None, Some("DATABASE_DEPENDENCY_UNAVAILABLE"), false, [], None, false)))
    case Begin => c.(point := Opened)
    case StateChecked => c.(point := Checked)
    case LedgerSkipped => c.(point := Writing)
    case LockTaken => c.(point := Claiming)
    case MarkerRead(found) =>
      if found.Some? then c.(point := Replaying, receipt := found, committed := true, replayUnverified := request.audit)
      else c.(point := Writing)
    case ReplayVerified => c.(point := Left, replayUnverified := false)
    case Wrote(_) => c
    case GroupUndone(_) => c
    case Summarized(r) => c.(point := Received, receipt := Some(r), plan := Some(r.planFingerprint))
    case AuditAppended(head) => c.(point := Audited, receipt := Some(c.receipt.value.(auditHead := Some(head))))
    case MarkerInserted => c.(point := Marked)
    case CommitStarted => c.(point := Committing, commitStarted := true)
    case CommitAcknowledged => c.(point := Left, committed := true)
    case Raised(f) => Caught(c, f)
    case CleanedUp(ok, interrupted) =>
      c.(point := Cleaned, cleanupOk := ok, cancelled := c.cancelled || interrupted)
    case CleanupRaised => c.(point := Cleaned, cleanupOk := false, escaping := true)
    case RollbackEventRaised => c.(escaping := true)
    case Concluded(recorded, cancelling) =>
      c.(point := Finished, outcome := Some(Conclusion(request, c, recorded, cancelling)))
  }

  /** What the routine returns once the connection has been cleaned up. */
  function Conclusion(request: Request, c: Client, recorded: bool, cancelling: bool): Outcome
  {
    if c.committed then
      if c.replayUnverified then
        Outcome(Committed, None, Some("AUDIT_COMMITTED_UNVERIFIED"), false, [], c.receipt, false)
      else
        var warnings := (if c.cleanupOk then [] else ["LOAD_POST_COMMIT_CLEANUP_FAILED"])
                      + (if c.cancelled then ["LOAD_CANCELLED_AFTER_COMMIT"] else []);
        Outcome(Committed, c.plan, None, false, warnings, c.receipt, false)
    else if c.commitStarted || !c.cleanupOk then
      Outcome(Unknown, None, Some("LOAD_OUTCOME_UNKNOWN"), c.cancelled, [], None, false)
    else
      var audited := request.audit && request.signer;
      var cancelled := c.cancelled || (audited && cancelling);
      Outcome(if cancelled then Cancelled else RolledBack, None,
              Some(if c.code.Some? then c.code.value else "LOAD_DATABASE_FAILED"),
              cancelled, [], None, audited && !recorded)
  }

  /** The state after a sequence of events, if each of them was legal. */
  function After(request: Request, log: seq<Event>): Option<Client>
  {
    if |log| == 0 then Some(Start)
    else
      var before := After(request, log[..|log| - 1]);
      var e := log[|log| - 1];
      if before.Some? && Legal(request, before.value, e) then Some(Advance(request, before.value, e)) else None
  }

  lemma {:induction false} AfterOneMore(request: Request, log: seq<Event>, e: Event)
    ensures After(request, log + [e]) ==
            var before := After(request, log);
            if before.Some? && Legal(request, before.value, e) then Some(Advance(request, before.value, e)) else None
  {
    assert (log + [e])[..|log|] == log;
  }

  // ---------------------------------------------------------------------------
  // Honesty of one attempt
  // ---------------------------------------------------------------------------

  predicate IsSafeCleanup(e: Event)
  {
    e.CleanedUp? && e.ok
  }

  /** The attempt is cancelled, in the try block or during the cleanup. */
  predicate IsCancellation(e: Event)
  {
    (e.Raised? && e.failure.Cancellation?) || (e.CleanedUp? && e.interrupted)
  }

  /** Only when it writes the audit event of the rollback does it look whether its caller is
      being cancelled. */
  predicate IsLateCancellation(e: Event)
  {
    e.Concluded? && e.callerCancelling
  }

  /** What the log says about the attempt, as opposed to what its variables say. */
  datatype Facts = Facts(
    commitIssued: bool, acknowledged: bool, found: bool, cleaned: bool, driverMissing: bool, interrupted: bool, late: bool)

  function NextFacts(f: Facts, e: Event): Facts
  {
    Facts(f.commitIssued || e.CommitStarted?, f.acknowledged || e.CommitAcknowledged?,
          f.found || IsFound(e), f.cleaned || IsSafeCleanup(e), f.driverMissing || e.DriverMissing?,
          f.interrupted || IsCancellation(e), f.late || IsLateCancellation(e))
  }

  function FactsOf(log: seq<Event>): Facts
  {
    if |log| == 0 then Facts(false, false, false, false, false, false, false)
    else NextFacts(FactsOf(log[..|log| - 1]), log[|log| - 1])
  }

  lemma {:induction false} FactsMean(log: seq<Event>)
    ensures FactsOf(log).commitIssued <==> CommitStarted in log
    ensures FactsOf(log).acknowledged <==> CommitAcknowledged in log
    ensures FactsOf(log).found <==> exists e :: e in log && IsFound(e)
    ensures FactsOf(log).cleaned <==> exists e :: e in log && IsSafeCleanup(e)
    ensures FactsOf(log).interrupted <==> exists e :: e in log && IsCancellation(e)
    ensures FactsOf(log).late <==> exists e :: e in log && IsLateCancellation(e)
    decreases |log|
  {
    if |log| > 0 {
      var front, last := log[..|log| - 1], log[|log| - 1];
      FactsMean(front);
      assert log == front + [last];
      assert forall e :: e in log <==> e in front || e == last;
    }
  }

  /** The flags of the client agree with what happened. */
  ghost predicate FlagsAgree(f: Facts, c: Client)
  {
    && c.commitStarted == f.commitIssued && c.cancelled == f.interrupted
    && c.committed == (f.acknowledged || f.found)
    && (f.acknowledged ==> f.commitIssued)
    && (f.found ==> (c.point.Replaying? || Outside(c.point)) && !f.commitIssued)
    && (c.point == Committing ==> f.commitIssued && !f.found)
    && (f.commitIssued ==> c.point.Committing? || Outside(c.point))
    && (f.driverMissing ==> c.point == Finished && !f.commitIssued && !f.found)
    && (Ended(c.point) && !f.driverMissing ==> (c.cleanupOk ==> f.cleaned))
  }

  /** An outcome is reported at the end only, not while an exception escapes, and honestly. */
  ghost predicate OutcomeAgrees(f: Facts, c: Client)
  {
    && (c.outcome.Some? <==> c.point == Finished)
    && (c.escaping ==> Outside(c.point) && c.outcome.None?)
    && (f.driverMissing ==> c.outcome.Some? && c.outcome.value.status == Failed)
    && (c.outcome.Some? && !f.driverMissing ==> Honest(f, c.outcome.value))
    && (c.outcome.Some? && (c.outcome.value.status.RolledBack? || c.outcome.value.status.Cancelled?) ==> c.cleanupOk && !c.commitStarted)
  }

  /** The variables of the client agree with what happened. */
  ghost predicate Remembers(f: Facts, c: Client)
  {
    FlagsAgree(f, c) && OutcomeAgrees(f, c)
  }

  /** A reported commit was acknowledged or read back from a marker; a reported
      rollback or cancellation means COMMIT was never issued and the cleanup ended the
      transaction; once COMMIT was issued no rollback is ever reported; and of a load that was
      cancelled no mere rollback is reported. */
  ghost predicate Honest(f: Facts, o: Outcome)
  {
    && (o.status == Committed <==> f.acknowledged || f.found)
    && (o.status.RolledBack? || o.status.Cancelled? ==> !f.commitIssued && f.cleaned && !f.found)
    && (f.commitIssued ==> o.status.Committed? || o.status.Unknown?)
    && (o.status != Committed ==> o.result.None?)
    && (o.status == Cancelled ==> f.interrupted || f.late)
    && (o.status == RolledBack ==> !f.interrupted)
    && (o.cancelled <==> o.status == Cancelled || (o.status == Unknown && f.interrupted))
    && o.status != Failed
  }

  /** The events that decide whether the attempt counts as committed. */
  predicate Deciding(e: Event)
  {
    e.DriverMissing? || e.MarkerRead? || e.ReplayVerified? || e.CommitStarted? || e.CommitAcknowledged?
  }

  lemma {:induction false} RemembersWork(request: Request, f: Facts, c: Client, e: Event)
    requires Remembers(f, c) && Legal(request, c, e) && !Leaving(e) && !Deciding(e)
    ensures Remembers(NextFacts(f, e), Advance(request, c, e))
  {
  }

  lemma {:induction false} RemembersDecision(request: Request, f: Facts, c: Client, e: Event)
    requires Remembers(f, c) && Legal(request, c, e) && Deciding(e)
    ensures Remembers(NextFacts(f, e), Advance(request, c, e))
  {
  }

  lemma {:induction false} RemembersFailure(request: Request, f: Facts, c: Client, e: Event)
    requires Remembers(f, c) && Legal(request, c, e) && e.Raised?
    ensures Remembers(NextFacts(f, e), Advance(request, c, e))
  {
  }

  lemma {:induction false} RemembersCleanup(request: Request, f: Facts, c: Client, e: Event)
    requires Remembers(f, c) && Legal(request, c, e) && (e.CleanedUp? || e.CleanupRaised?)
    ensures Remembers(NextFacts(f, e), Advance(request, c, e))
  {
  }

  lemma {:induction false} RemembersConclusion(request: Request, f: Facts, c: Client, e: Event)
    requires Remembers(f, c) && Legal(request, c, e) && (e.Concluded? || e.RollbackEventRaised?)
    ensures Remembers(NextFacts(f, e), Advance(request, c, e))
  {
  }

  lemma {:induction false} RemembersNext(request: Request, f: Facts, c: Client, e: Event)
    requires Remembers(f, c) && Legal(request, c, e)
    ensures Remembers(NextFacts(f, e), Advance(request, c, e))
  {
    match e
    case Raised(_) => RemembersFailure(request, f, c, e);
    case CleanedUp(_, _) => RemembersCleanup(request, f, c, e);
    case CleanupRaised => RemembersCleanup(request, f, c, e);
    case RollbackEventRaised => RemembersConclusion(request, f, c, e);
    case Concluded(_, _) => RemembersConclusion(request, f, c, e);
    case _ =>
      if Deciding(e) {
        RemembersDecision(request, f, c, e);
      } else {
        RemembersWork(request, f, c, e);
      }
  }

  lemma {:induction false} FlagsRemember(request: Request, log: seq<Event>)
    requires After(request, log).Some?
    ensures Remembers(FactsOf(log), After(request, log).value)
    decreases |log|
  {
    if |log| > 0 {
      var front, e := log[..|log| - 1], log[|log| - 1];
      FlagsRemember(request, front);
      RemembersNext(request, FactsOf(front), After(request, front).value, e);
    }
  }

  /** Under every pattern of failures the returned outcome is honest, and the driver
      being absent is the only way to report a failed status. */
  lemma {:induction false} OutcomesAreHonest(request: Request, log: seq<Event>)
    requires After(request, log).Some? && After(request, log).value.outcome.Some?
    ensures var o := After(request, log).value.outcome.value;
            if FactsOf(log).driverMissing then o.status == Failed else Honest(FactsOf(log), o)
  {
    FlagsRemember(request, log);
  }
}
