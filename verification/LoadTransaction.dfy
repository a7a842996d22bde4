/** The transaction routine itself: one body of awaits, any of which may fail, then
    the cleanup and the decision what to report. */
module LoadTransaction {
  import opened Wrappers
  import opened LoadContracts
  import opened LoadClient
  import opened WriteHistory

  /** The places where the routine waits for the database, the staging store or the signer. */
  datatype Stage =
    | Connect | PrepareAudit | ReadState | TakeLock | ReadMarker | VerifyReplay
    | PreparePlan | WriteRows | AppendAudit | InsertMarker | FinalChecks | Commit

  /** Everything the surroundings decide during one call: which waits fail and how, what
      the marker SELECT finds, what the write loop does before it ends or fails, and reports,
      and how the cleanup and the audit event of a rollback end: by an exception or with what. */
  datatype Surroundings = Surroundings(
    driverPresent: bool,
    fault: Stage -> Option<Failure>,
    marker: Option<Receipt>,
    writes: seq<Effect>, planFingerprint: string, policyFingerprint: string,
    inserted: nat, updated: nat, skipped: nat, quarantined: nat, loadedRecords: nat, rejectedRecords: nat,
    auditHead: string,
    cleanupRaises: bool, cleanupOk: bool, cleanupInterrupted: bool,
    rollbackRaises: bool, rollbackRecorded: bool, callerCancelling: bool)

  function Summary(request: Request, env: Surroundings): Receipt
  {
    Receipt(request.runId, request.mapping.targetId,
            request.mapping.databaseFingerprint, request.mapping.normalizedFingerprint, request.mapping.fingerprint,
            env.planFingerprint, env.policyFingerprint,
            env.inserted, env.updated, env.skipped, env.quarantined, env.loadedRecords, env.rejectedRecords,
            false, None, None)
  }

  lemma {:induction false} Record(request: Request, log: seq<Event>, client: Client,
                                  e: Event) returns (longer: seq<Event>, next: Client)
    requires After(request, log) == Some(client) && Legal(request, client, e)
    ensures longer == log + [e] && next == Advance(request, client, e)
    ensures After(request, longer) == Some(next)
  {
    longer, next := log + [e], Advance(request, client, e);
    AfterOneMore(request, log, e);
  }

  function Events(effects: seq<Effect>): seq<Event>
  {
    seq(|effects|, i requires 0 <= i < |effects| => EventOf(effects[i]))
  }

  /** Writing changes no variable of the routine. */
  lemma {:induction false} RecordWrites(request: Request, log: seq<Event>, client: Client, effects: seq<Effect>)
    requires After(request, log) == Some(client) && client.point == Writing
    ensures After(request, log + Events(effects)) == Some(client)
    decreases |effects|
  {
    if |effects| == 0 {
      assert log + Events(effects) == log;
    } else {
      var front, last := effects[..|effects| - 1], effects[|effects| - 1];
      RecordWrites(request, log, client, front);
      WriteKeepsClient(request, log + Events(front), client, last);
      assert log + Events(effects) == log + Events(front) + [EventOf(last)];
    }
  }

  lemma {:induction false} WriteKeepsClient(request: Request, log: seq<Event>, client: Client, effect: Effect)
    requires After(request, log) == Some(client) && client.point == Writing
    ensures After(request, log + [EventOf(effect)]) == Some(client)
  {
    AfterOneMore(request, log, EventOf(effect));
  }

  function FinalReceipt(request: Request, env: Surroundings): Receipt
  {
    Summary(request, env).(auditHead := if request.audit then Some(env.auditHead) else None)
  }

  predicate Passes(env: Surroundings, stage: Stage)
  {
    env.fault(stage).None?
  }

  /** The session is open and checked. */
  predicate Opens(request: Request, env: Surroundings)
  {
    Passes(env, Connect) && (request.audit ==> request.signer && Passes(env, PrepareAudit)) && Passes(env, ReadState)
  }

  predicate Claims(request: Request, env: Surroundings)
  {
    request.key.Some? ==> Passes(env, TakeLock) && Passes(env, ReadMarker)
  }

  /** The claim got as far as reading a stored marker. */
  predicate Finds(request: Request, env: Surroundings)
  {
    Opens(request, env) && Claims(request, env) && request.key.Some? && env.marker.Some?
  }

  /** The key is claimed, and no marker was found. */
  predicate Starts(request: Request, env: Surroundings)
  {
    Opens(request, env) && Claims(request, env) && !Finds(request, env)
  }

  /** Everything before COMMIT was done. */
  predicate Issues(request: Request, env: Surroundings)
  {
    Starts(request, env) && Prepares(request, env)
  }

  predicate Prepares(request: Request, env: Surroundings)
  {
    Writes(env) && Audits(request, env) && Marks(request, env) && Passes(env, FinalChecks)
  }

  predicate Writes(env: Surroundings)
  {
    Passes(env, PreparePlan) && Passes(env, WriteRows)
  }

  predicate Audits(request: Request, env: Surroundings)
  {
    request.audit ==> Passes(env, AppendAudit)
  }

  predicate Marks(request: Request, env: Surroundings)
  {
    request.key.Some? ==> Passes(env, InsertMarker)
  }

  /** The routine gets as far as waiting at this stage. */
  predicate Reached(request: Request, env: Surroundings, stage: Stage)
  {
    match stage
    case Connect => true
    case PrepareAudit => Passes(env, Connect) && request.audit && request.signer
    case ReadState => Passes(env, Connect) && (request.audit ==> request.signer && Passes(env, PrepareAudit))
    case TakeLock => Opens(request, env) && request.key.Some?
    case ReadMarker => Opens(request, env) && request.key.Some? && Passes(env, TakeLock)
    case VerifyReplay => Finds(request, env) && request.audit && env.marker.value.auditHead.Some?
    case PreparePlan => Starts(request, env)
    case WriteRows => Starts(request, env) && Passes(env, PreparePlan)
    case AppendAudit => Starts(request, env) && Writes(env) && request.audit
    case InsertMarker => Starts(request, env) && Writes(env) && Audits(request, env) && request.key.Some?
    case FinalChecks => Starts(request, env) && Writes(env) && Audits(request, env) && Marks(request, env)
    case Commit => Issues(request, env)
  }

  /** A wait that is reached fails this way. */
  predicate FailsAt(request: Request, env: Surroundings, stage: Stage, f: Failure)
  {
    Reached(request, env, stage) && env.fault(stage) == Some(f)
  }

  /** An audited load has no signer. */
  predicate LacksSigner(request: Request, env: Surroundings)
  {
    Passes(env, Connect) && request.audit && !request.signer
  }

  /** The marker of an audited load names no head of its audit chain. */
  predicate LacksHead(request: Request, env: Surroundings)
  {
    Finds(request, env) && request.audit && env.marker.value.auditHead.None?
  }

  /** The try block ends with this failure: a wait brought it, or one of two refusals. */
  ghost predicate StopsWith(request: Request, env: Surroundings, f: Failure)
  {
    || (exists stage :: FailsAt(request, env, stage, f))
    || (LacksSigner(request, env) && f == Coded("AUDIT_DURABILITY_REQUIRED"))
    || (LacksHead(request, env) && f == Coded("AUDIT_CHAIN_INVALID"))
  }

  /** The audit event of a rollback raises: it is written only if nothing was committed, COMMIT
      was not issued and the cleanup ended the transaction. */
  predicate RollbackEventEscapes(request: Request, env: Surroundings)
  {
    && env.rollbackRaises && request.audit && request.signer
    && !Finds(request, env) && !Issues(request, env) && env.cleanupOk
  }

  /** An exception leaves the routine: from the try block, from the cleanup, which always runs,
      or from the audit event. */
  ghost predicate Escapes(request: Request, env: Surroundings)
  {
    StopsWith(request, env, Unhandled) || env.cleanupRaises || RollbackEventEscapes(request, env)
  }

  /** The attempt was cancelled while it waited in the try block or in the cleanup. */
  ghost predicate Interrupted(request: Request, env: Surroundings)
  {
    StopsWith(request, env, Cancellation) || env.cleanupInterrupted
  }

  // ---------------------------------------------------------------------------
  // The first failure
  // ---------------------------------------------------------------------------

  function First(a: Option<Failure>, b: Option<Failure>): Option<Failure>
  {
    if a.Some? then a else b
  }

  function OpeningFault(request: Request, env: Surroundings): Option<Failure>
  {
    First(env.fault(Connect), First(AuditFault(request, env), env.fault(ReadState)))
  }

  function AuditFault(request: Request, env: Surroundings): Option<Failure>
  {
    if !request.audit then None
    else if !request.signer then Some(Coded("AUDIT_DURABILITY_REQUIRED"))
    else env.fault(PrepareAudit)
  }

  function ClaimingFault(request: Request, env: Surroundings): Option<Failure>
  {
    if request.key.None? then None else First(env.fault(TakeLock), env.fault(ReadMarker))
  }

  function ReplayFault(request: Request, env: Surroundings, found: Receipt): Option<Failure>
  {
    if !request.audit then None
    else if found.auditHead.None? then Some(Coded("AUDIT_CHAIN_INVALID"))
    else env.fault(VerifyReplay)
  }

  function WritingFault(env: Surroundings): Option<Failure>
  {
    First(env.fault(PreparePlan), env.fault(WriteRows))
  }

  function SealingFault(request: Request, env: Surroundings): Option<Failure>
  {
    First(if request.audit then env.fault(AppendAudit) else None, if request.key.Some? then env.fault(InsertMarker) else None)
  }

  function CommittingFault(env: Surroundings): Option<Failure>
  {
    First(env.fault(FinalChecks), env.fault(Commit))
  }

  /** What follows the claim: the check of the replay, or the load. */
  function WorkFault(request: Request, env: Surroundings): Option<Failure>
  {
    if request.key.Some? && env.marker.Some? then ReplayFault(request, env, env.marker.value)
    else First(WritingFault(env), First(SealingFault(request, env), CommittingFault(env)))
  }

  function Fault(request: Request, env: Surroundings): Option<Failure>
  {
    First(OpeningFault(request, env), First(ClaimingFault(request, env), WorkFault(request, env)))
  }

  lemma {:induction false} FaultsBlock(request: Request, env: Surroundings)
    ensures OpeningFault(request, env).None? <==> Opens(request, env)
    ensures ClaimingFault(request, env).None? <==> Claims(request, env)
    ensures WritingFault(env).None? <==> Writes(env)
    ensures SealingFault(request, env).None? <==> Audits(request, env) && Marks(request, env)
    ensures CommittingFault(env).None? <==> Passes(env, FinalChecks) && Passes(env, Commit)
  {
  }

  /** The try block ends with the first failure, if there is one. */
  lemma {:induction false} FirstFailureStops(request: Request, env: Surroundings, f: Failure)
    ensures Fault(request, env) == Some(f) <==> StopsWith(request, env, f)
  {
    FaultsBlock(request, env);
    if Fault(request, env) == Some(f) {
      StoppedSomewhere(request, env, f);
    }
    if stage :| FailsAt(request, env, stage, f) {
      FailureIsFirst(request, env, stage, f);
    }
  }

  lemma {:induction false} FailureIsFirst(request: Request, env: Surroundings, stage: Stage, f: Failure)
    requires FailsAt(request, env, stage, f)
    ensures Fault(request, env) == Some(f)
  {
    FaultsBlock(request, env);
  }

  lemma {:induction false} StoppedSomewhere(request: Request, env: Surroundings, f: Failure)
    requires Fault(request, env) == Some(f)
    ensures StopsWith(request, env, f)
  {
    FaultsBlock(request, env);
    if OpeningFault(request, env).Some? {
      StoppedOpening(request, env, f);
    } else if ClaimingFault(request, env).Some? {
      var stage := if env.fault(TakeLock).Some? then TakeLock else ReadMarker;
      assert FailsAt(request, env, stage, f);
    } else if Finds(request, env) {
      assert LacksHead(request, env) || FailsAt(request, env, VerifyReplay, f);
    } else {
      StoppedWorking(request, env, f);
    }
  }

  lemma {:induction false} StoppedOpening(request: Request, env: Surroundings, f: Failure)
    requires OpeningFault(request, env) == Some(f)
    ensures StopsWith(request, env, f)
  {
    var stage :=
      if env.fault(Connect).Some? then Connect else if AuditFault(request, env).Some? then PrepareAudit else ReadState;
    assert LacksSigner(request, env) || FailsAt(request, env, stage, f);
  }

  lemma {:induction false} StoppedWorking(request: Request, env: Surroundings, f: Failure)
    requires Starts(request, env)
    requires First(WritingFault(env), First(SealingFault(request, env), CommittingFault(env))) == Some(f)
    ensures StopsWith(request, env, f)
  {
    var stage :=
      if env.fault(PreparePlan).Some? then PreparePlan
      else if env.fault(WriteRows).Some? then WriteRows
      else if request.audit && env.fault(AppendAudit).Some? then AppendAudit
      else if request.key.Some? && env.fault(InsertMarker).Some? then InsertMarker
      else if env.fault(FinalChecks).Some? then FinalChecks
      else Commit;
    assert FailsAt(request, env, stage, f);
  }

  /** Connect, begin, prepare the audit store and check the session state. */
  method OpenTransaction(request: Request, env: Surroundings)
    returns (raised: Option<Failure>, ghost log: seq<Event>, ghost client: Client)
    ensures After(request, log) == Some(client)
    ensures client == Start.(point := client.point) && InsideTry(client.point)
    ensures raised.None? ==> client.point == Checked
    ensures raised.None? <==> Opens(request, env)
    ensures raised == OpeningFault(request, env)
  {
    log, client := [], Start;
    raised := env.fault(Connect);
    if raised.Some? { return; }
    log, client := Record(request, log, client, Begin);
    if request.audit {
      raised := if !request.signer then Some(Coded("AUDIT_DURABILITY_REQUIRED")) else env.fault(PrepareAudit);
      if raised.Some? { return; }
    }
    raised := env.fault(ReadState);
    if raised.Some? { return; }
    log, client := Record(request, log, client, StateChecked);
  }

  /** Take the advisory lock of the key and read its marker. */
  method ClaimKey(request: Request, env: Surroundings, ghost log0: seq<Event>, ghost client0: Client)
    returns (raised: Option<Failure>, receipt: Option<Receipt>, ghost log: seq<Event>, ghost client: Client)
    requires After(request, log0) == Some(client0) && client0 == Start.(point := Checked) && Opens(request, env)
    ensures After(request, log) == Some(client)
    ensures raised.None? <==> Claims(request, env)
    ensures raised == ClaimingFault(request, env)
    ensures receipt == if raised.None? && request.key.Some? then env.marker else None
    ensures raised.Some? ==> client == Start.(point := client.point) && InsideTry(client.point)
    ensures raised.None? && receipt.None? ==> client == Start.(point := Writing)
    ensures raised.None? && receipt.Some? ==>
      client == Start.(point := Replaying, receipt := receipt, committed := true, replayUnverified := request.audit)
  {
    log, client, receipt := log0, client0, None;
    raised := None;
    if request.key.None? {
      log, client := Record(request, log, client, LedgerSkipped);
      return;
    }
    raised := env.fault(TakeLock);
    if raised.Some? { return; }
    log, client := Record(request, log, client, LockTaken);
    raised := env.fault(ReadMarker);
    if raised.Some? { return; }
    receipt := env.marker;
    log, client := Record(request, log, client, MarkerRead(receipt));
  }

  /** Make the plan, write it and put the receipt together. */
  method PlanAndWrite(request: Request, env: Surroundings, ghost log0: seq<Event>, ghost client0: Client)
    returns (raised: Option<Failure>, ghost log: seq<Event>, ghost client: Client)
    requires After(request, log0) == Some(client0) && client0 == Start.(point := Writing) && Starts(request, env)
    ensures After(request, log) == Some(client)
    ensures raised.None? <==> Writes(env)
    ensures raised == WritingFault(env)
    ensures client ==
            if raised.Some? then client0
            else Start.(point := Received, receipt := Some(Summary(request, env)), plan := Some(env.planFingerprint))
  {
    log, client := log0, client0;
    raised := env.fault(PreparePlan);
    if raised.Some? { return; }
    RecordWrites(request, log, client, env.writes);
    log := log + Events(env.writes);
    raised := env.fault(WriteRows);
    if raised.Some? { return; }
    log, client := Record(request, log, client, Summarized(Summary(request, env)));
  }

  /** Append the audit event and insert the marker. */
  method Seal(request: Request, env: Surroundings, ghost log0: seq<Event>, ghost client0: Client)
    returns (raised: Option<Failure>, receipt: Receipt, ghost log: seq<Event>, ghost client: Client)
    requires After(request, log0) == Some(client0) && Starts(request, env) && Writes(env)
    requires client0 == Start.(point := Received, receipt := Some(Summary(request, env)), plan := Some(env.planFingerprint))
    ensures After(request, log) == Some(client)
    ensures client == Start.(point := client.point, receipt := Some(receipt), plan := Some(env.planFingerprint))
    ensures InsideTry(client.point)
    ensures raised.None? <==> Audits(request, env) && Marks(request, env)
    ensures raised.None? ==> ReadyToCommit(request, client.point) && receipt == FinalReceipt(request, env)
    ensures raised == SealingFault(request, env)
  {
    log, client, receipt := log0, client0, Summary(request, env);
    raised := None;
    if request.audit {
      raised := env.fault(AppendAudit);
      if raised.Some? { return; }
      receipt := receipt.(auditHead := Some(env.auditHead));
      log, client := Record(request, log, client, AuditAppended(env.auditHead));
    }
    if request.key.Some? {
      raised := env.fault(InsertMarker);
      if raised.Some? { return; }
      log, client := Record(request, log, client, MarkerInserted);
    }
  }

  /** Check again and commit. */
  method CheckAndCommit(request: Request, env: Surroundings, ghost log0: seq<Event>, ghost client0: Client)
    returns (raised: Option<Failure>, commitStarted: bool, committed: bool, ghost log: seq<Event>, ghost client: Client)
    requires After(request, log0) == Some(client0) && ReadyToCommit(request, client0.point)
    requires client0 == Start.(point := client0.point, receipt := client0.receipt, plan := client0.plan)
    requires Starts(request, env) && Writes(env) && Audits(request, env) && Marks(request, env)
    ensures After(request, log) == Some(client)
    ensures client == Start.(point := client.point, receipt := client0.receipt, plan := client0.plan,
                             commitStarted := commitStarted, committed := committed)
    ensures if raised.Some? then InsideTry(client.point) else client.point == Left
    ensures commitStarted <==> Passes(env, FinalChecks)
    ensures committed <==> raised.None?
    ensures committed <==> Passes(env, FinalChecks) && Passes(env, Commit)
    ensures raised == CommittingFault(env)
  {
    log, client, commitStarted, committed := log0, client0, false, false;
    raised := env.fault(FinalChecks);
    if raised.Some? { return; }
    commitStarted := true;
    log, client := Record(request, log, client, CommitStarted);
    raised := env.fault(Commit);
    if raised.Some? { return; }
    committed := true;
    log, client := Record(request, log, client, CommitAcknowledged);
  }

  /** Plan, write, seal and commit. */
  method WriteAndCommit(request: Request, env: Surroundings, ghost log0: seq<Event>, ghost client0: Client)
    returns (raised: Option<Failure>, receipt: Option<Receipt>, plan: Option<string>,
             commitStarted: bool, committed: bool, ghost log: seq<Event>, ghost client: Client)
    requires After(request, log0) == Some(client0) && client0 == Start.(point := Writing) && Starts(request, env)
    ensures After(request, log) == Some(client)
    ensures client == Start.(point := client.point, receipt := receipt, plan := plan, commitStarted := commitStarted, committed := committed)
    ensures if raised.Some? then InsideTry(client.point) && !committed else client.point == Left && committed
    ensures commitStarted <==> Prepares(request, env)
    ensures committed <==> Prepares(request, env) && Passes(env, Commit)
    ensures raised == First(WritingFault(env), First(SealingFault(request, env), CommittingFault(env)))
    ensures committed ==> commitStarted && receipt == Some(FinalReceipt(request, env)) && plan == Some(env.planFingerprint)
  {
    receipt, plan, commitStarted, committed := None, None, false, false;
    raised, log, client := PlanAndWrite(request, env, log0, client0);
    if raised.Some? { return; }
    plan := Some(env.planFingerprint);
    var summary;
    raised, summary, log, client := Seal(request, env, log, client);
    receipt := Some(summary);
    if raised.Some? { return; }
    raised, commitStarted, committed, log, client := CheckAndCommit(request, env, log, client);
  }

  /** The variables of the routine are those of the client automaton. */
  ghost predicate Agrees(c: Client, receipt: Option<Receipt>, plan: Option<string>,
                         commitStarted: bool, committed: bool, cancelled: bool, replayUnverified: bool, escaping: bool,
                         code: Option<string>)
  {
    c == Client(c.point, commitStarted, committed, cancelled, replayUnverified, escaping, code, receipt, plan, c.cleanupOk, c.outcome)
  }

  /** The guarded part: everything inside the try block and the deadline. */
  method Attempt(request: Request, env: Surroundings)
    returns (raised: Option<Failure>, receipt: Option<Receipt>, plan: Option<string>,
             commitStarted: bool, committed: bool, replayUnverified: bool,
             ghost log: seq<Event>, ghost client: Client)
    ensures After(request, log) == Some(client) && client.cleanupOk && client.outcome.None?
    ensures Agrees(client, receipt, plan, commitStarted, committed, false, replayUnverified, false, None)
    ensures if raised.Some? then InsideTry(client.point) else client.point == Left
    ensures commitStarted <==> Issues(request, env)
    ensures committed <==> Finds(request, env) || (Issues(request, env) && Passes(env, Commit))
    ensures raised == Fault(request, env)
    ensures committed && !commitStarted ==> receipt == env.marker && plan.None?
    ensures replayUnverified <==> Finds(request, env) && request.audit && raised.Some?
    ensures committed && commitStarted ==> receipt == Some(FinalReceipt(request, env)) && plan == Some(env.planFingerprint)
  {
    receipt, plan, commitStarted, committed, replayUnverified := None, None, false, false, false;
    FaultsBlock(request, env);
    raised, log, client := OpenTransaction(request, env);
    if raised.Some? { return; }
    raised, receipt, log, client := ClaimKey(request, env, log, client);
    if raised.Some? {
      receipt := None;
      return;
    }
    if receipt.Some? {
      committed := true;
      replayUnverified := request.audit;
      if request.audit {
        raised := if receipt.value.auditHead.None? then Some(Coded("AUDIT_CHAIN_INVALID")) else env.fault(VerifyReplay);
        if raised.Some? { return; }
        replayUnverified := false;
      }
      log, client := Record(request, log, client, ReplayVerified);
    } else {
      raised, receipt, plan, commitStarted, committed, log, client := WriteAndCommit(request, env, log, client);
    }
  }

  /** The whole call: what it reports in terms of the awaits that failed, and a history
      that is a run of the client automaton about which the report is honest. It reports
      nothing exactly when an exception escapes. */
  method ExecuteTransaction(request: Request, env: Surroundings)
    returns (r: Option<Outcome>, ghost log: seq<Event>, ghost client: Client)
    ensures After(request, log) == Some(client) && client.outcome == r
    ensures r.None? <==> env.driverPresent && Escapes(request, env)
    ensures env.driverPresent && r.Some? ==> Honest(FactsOf(log), r.value)
    ensures !env.driverPresent ==>
              r == Some(Outcome(Failed, None, Some("DATABASE_DEPENDENCY_UNAVAILABLE"), false, [], None, false))
    ensures env.driverPresent ==> (FactsOf(log).commitIssued <==> Issues(request, env))
    ensures env.driverPresent && r.Some? ==> Reports(request, env, r.value)
  {
    if !env.driverPresent {
      log, client := Record(request, [], Start, DriverMissing);
      return Some(Outcome(Failed, None, Some("DATABASE_DEPENDENCY_UNAVAILABLE"), false, [], None, false)), log, client;
    }
    r, log, client := RunTransaction(request, env);
  }

  /** Everything the call reports, in terms of the surroundings. */
  ghost predicate Reports(request: Request, env: Surroundings, o: Outcome)
  {
    ReportsStatus(request, env, o) && ReportsReceipt(request, env, o) && ReportsCode(request, env, o) && ReportsTrouble(request, env, o)
  }

  /** Which status, and whether the outcome says that the attempt was cancelled. */
  ghost predicate ReportsStatus(request: Request, env: Surroundings, o: Outcome)
  {
    && (o.status == Committed <==> Finds(request, env) || (Issues(request, env) && Passes(env, Commit)))
    && (o.status == Unknown <==> o.status != Committed && (Issues(request, env) || !env.cleanupOk))
    && (o.status == Cancelled <==>
         && !Finds(request, env) && !Issues(request, env) && env.cleanupOk
         && (Interrupted(request, env) || (request.audit && request.signer && env.callerCancelling)))
    && o.status != Failed
    && (o.cancelled <==> o.status == Cancelled || (o.status == Unknown && Interrupted(request, env)))
  }

  ghost predicate ReportsReceipt(request: Request, env: Surroundings, o: Outcome)
  {
    && (o.status == Committed && Finds(request, env) ==> o.result == env.marker && o.plan.None?)
    && (o.status == Committed && Issues(request, env) ==>
         o.result.Some? && Describes(request, env, o.result.value) && o.plan == Some(env.planFingerprint))
    && (o.status != Committed ==> o.result.None? && o.plan.None?)
  }

  /** The receipt of a fresh load: whose it is, what it did, and where its audit chain ends. */
  ghost predicate Describes(request: Request, env: Surroundings, r: Receipt)
  {
    && r.runId == request.runId && r.targetId == request.mapping.targetId
    && r.databaseFingerprint == request.mapping.databaseFingerprint
    && r.normalizedFingerprint == request.mapping.normalizedFingerprint
    && r.mappingFingerprint == request.mapping.fingerprint
    && r.planFingerprint == env.planFingerprint && r.policyFingerprint == env.policyFingerprint
    && r.inserted == env.inserted && r.updated == env.updated && r.skipped == env.skipped && r.quarantined == env.quarantined
    && r.loadedRecords == env.loadedRecords && r.rejectedRecords == env.rejectedRecords
    && !r.replayed && r.attemptRun.None?
    && r.auditHead == (if request.audit then Some(env.auditHead) else None)
  }

  /** The replay of an audited load whose audit chain could not be verified. */
  ghost predicate Unverified(request: Request, env: Surroundings)
  {
    Finds(request, env) && request.audit && exists f :: StopsWith(request, env, f)
  }

  /** The code of a load that left nothing: that of the failure that ended it. */
  function CodeFor(f: Failure): string
  {
    match f
    case Timeout => "PROCESSING_TIMEOUT"
    case Coded(code) => code
    case _ => "LOAD_DATABASE_FAILED"
  }

  ghost predicate ReportsCode(request: Request, env: Surroundings, o: Outcome)
  {
    match o.status
    case Committed => o.code == if Unverified(request, env) then Some("AUDIT_COMMITTED_UNVERIFIED") else None
    case Unknown => o.code == Some("LOAD_OUTCOME_UNKNOWN")
    case _ => exists f :: StopsWith(request, env, f) && o.code == Some(CodeFor(f))
  }

  /** The warnings after a commit, and the gap in the audit chain after a rollback. */
  ghost predicate ReportsTrouble(request: Request, env: Surroundings, o: Outcome)
  {
    && (o.warnings == if o.status != Committed || Unverified(request, env) then []
        else (if env.cleanupOk then [] else ["LOAD_POST_COMMIT_CLEANUP_FAILED"])
             + (if Interrupted(request, env) then ["LOAD_CANCELLED_AFTER_COMMIT"] else []))
    && (o.auditGap <==>
         (o.status.RolledBack? || o.status.Cancelled?) && request.audit && request.signer && !env.rollbackRecorded)
  }

  /** The flags at the end, in terms of the surroundings. */
  ghost predicate Decided(request: Request, env: Surroundings, c: Client)
  {
    && c.commitStarted == Issues(request, env)
    && c.committed == (Finds(request, env) || (Issues(request, env) && Passes(env, Commit)))
    && c.cancelled == (Fault(request, env) == Some(Cancellation) || env.cleanupInterrupted)
    && c.replayUnverified == (Finds(request, env) && request.audit && Fault(request, env).Some?)
    && c.code == (if Fault(request, env).Some? then CaughtCode(Fault(request, env).value) else None)
    && c.cleanupOk == env.cleanupOk
    && (c.committed && !c.commitStarted ==> c.receipt == env.marker && c.plan.None?)
    && (c.committed && c.commitStarted ==> c.receipt == Some(FinalReceipt(request, env)) && c.plan == Some(env.planFingerprint))
  }

  function CaughtCode(f: Failure): Option<string>
  {
    match f
    case Timeout => Some("PROCESSING_TIMEOUT")
    case Coded(code) => Some(code)
    case _ => None
  }

  lemma {:induction false} FailuresDecide(request: Request, env: Surroundings)
    ensures Interrupted(request, env) <==> Fault(request, env) == Some(Cancellation) || env.cleanupInterrupted
    ensures Unverified(request, env) <==> Finds(request, env) && request.audit && Fault(request, env).Some?
    ensures Fault(request, env).Some? ==> StopsWith(request, env, Fault(request, env).value)
    ensures Fault(request, env).None? <==>
            Opens(request, env) && Claims(request, env) &&
            if Finds(request, env) then ReplayFault(request, env, env.marker.value).None? else Prepares(request, env) && Passes(env, Commit)
  {
    FaultsBlock(request, env);
    FirstFailureStops(request, env, Cancellation);
    if Fault(request, env).Some? {
      FirstFailureStops(request, env, Fault(request, env).value);
    }
    if f :| StopsWith(request, env, f) {
      FirstFailureStops(request, env, f);
    }
  }

  lemma {:induction false} StatusMeans(request: Request, env: Surroundings, c: Client)
    requires Decided(request, env, c)
    ensures ReportsStatus(request, env, Conclusion(request, c, env.rollbackRecorded, env.callerCancelling))
  {
    FailuresDecide(request, env);
  }

  lemma {:induction false} ReceiptMeans(request: Request, env: Surroundings, c: Client)
    requires Decided(request, env, c)
    ensures ReportsReceipt(request, env, Conclusion(request, c, env.rollbackRecorded, env.callerCancelling))
  {
    FailuresDecide(request, env);
  }

  lemma {:induction false} CodeMeans(request: Request, env: Surroundings, c: Client)
    requires Decided(request, env, c)
    ensures ReportsCode(request, env, Conclusion(request, c, env.rollbackRecorded, env.callerCancelling))
  {
    FailuresDecide(request, env);
  }

  lemma {:induction false} TroubleMeans(request: Request, env: Surroundings, c: Client)
    requires Decided(request, env, c)
    ensures ReportsTrouble(request, env, Conclusion(request, c, env.rollbackRecorded, env.callerCancelling))
  {
    FailuresDecide(request, env);
  }

  /** What is reported, in terms of the flags at the end. */
  lemma {:induction false} ConclusionMeans(request: Request, env: Surroundings, c: Client)
    requires Decided(request, env, c)
    ensures Reports(request, env, Conclusion(request, c, env.rollbackRecorded, env.callerCancelling))
  {
    StatusMeans(request, env, c);
    ReceiptMeans(request, env, c);
    CodeMeans(request, env, c);
    TroubleMeans(request, env, c);
  }

  method RunTransaction(request: Request, env: Surroundings)
    returns (r: Option<Outcome>, ghost log: seq<Event>, ghost client: Client)
    ensures After(request, log) == Some(client) && client.outcome == r
    ensures r.None? <==> Escapes(request, env)
    ensures r.Some? ==> Honest(FactsOf(log), r.value) && Reports(request, env, r.value)
    ensures FactsOf(log).commitIssued <==> Issues(request, env)
  {
    var raised, receipt, plan, commitStarted, committed, replayUnverified;
    raised, receipt, plan, commitStarted, committed, replayUnverified, log, client := Attempt(request, env);
    var cancelled, code, escaping;
    cancelled, escaping, code, log, client := CloseAttempt(request, env, raised, log, client);
    FirstFailureStops(request, env, Unhandled);
    if escaping {
      FlagsRemember(request, log);
      return None, log, client;
    }
    r := Report(request, env, receipt, plan, commitStarted, committed, cancelled, replayUnverified, code, client);
    if r.None? {
      FlagsRemember(request, log);
      log, client := Record(request, log, client, RollbackEventRaised);
      FlagsRemember(request, log);
      return;
    }
    ConclusionMeans(request, env, client);
    log, client := Conclude(request, log, client, env.rollbackRecorded, env.callerCancelling);
  }

  /** The except clauses. */
  method HandleFailure(request: Request, raised: Failure, ghost log0: seq<Event>, ghost client0: Client)
    returns (cancelled: bool, escaping: bool, code: Option<string>, ghost log: seq<Event>, ghost client: Client)
    requires After(request, log0) == Some(client0) && InsideTry(client0.point)
    requires !client0.cancelled && !client0.escaping && client0.code.None?
    ensures After(request, log) == Some(client)
    ensures client == client0.(point := Left, cancelled := cancelled, escaping := escaping, code := code)
    ensures escaping <==> raised == Unhandled
    ensures cancelled <==> raised == Cancellation
    ensures code == CaughtCode(raised)
  {
    cancelled, escaping, code := false, false, None;
    match raised {
      case Cancellation => cancelled := true;
      case Timeout => code := Some("PROCESSING_TIMEOUT");
      case Coded(c) => code := Some(c);
      case Unhandled => escaping := true;
    }
    log, client := Record(request, log0, client0, LoadClient.Raised(raised));
  }

  /** The except clauses and the cleanup in the finally clause. */
  method CloseAttempt(request: Request, env: Surroundings, raised: Option<Failure>,
                      ghost log0: seq<Event>, ghost client0: Client)
    returns (cancelled: bool, escaping: bool, code: Option<string>, ghost log: seq<Event>, ghost client: Client)
    requires After(request, log0) == Some(client0)
    requires !client0.cancelled && !client0.escaping && client0.code.None?
    requires if raised.Some? then InsideTry(client0.point) else client0.point == Left
    ensures After(request, log) == Some(client)
    ensures client ==
            client0.(point := Cleaned, cleanupOk := env.cleanupOk && !env.cleanupRaises, cancelled := cancelled,
                     escaping := escaping, code := code)
    ensures escaping <==> raised == Some(Unhandled) || env.cleanupRaises
    ensures !escaping ==> (cancelled <==> raised == Some(Cancellation) || env.cleanupInterrupted)
    ensures code == if raised.Some? then CaughtCode(raised.value) else None
  {
    log, client := log0, client0;
    cancelled, escaping, code := false, false, None;
    if raised.Some? {
      cancelled, escaping, code, log, client := HandleFailure(request, raised.value, log, client);
    }
    if env.cleanupRaises {
      log, client := Record(request, log, client, CleanupRaised);
      escaping := true;
      return;
    }
    log, client := Record(request, log, client, CleanedUp(env.cleanupOk, env.cleanupInterrupted));
    cancelled := cancelled || env.cleanupInterrupted;
  }

  lemma {:induction false} Conclude(request: Request, log: seq<Event>, client: Client, recorded: bool, cancelling: bool)
    returns (longer: seq<Event>, next: Client)
    requires After(request, log) == Some(client) && client.point == Cleaned && !client.escaping
    ensures After(request, longer) == Some(next)
    ensures next.outcome == Some(Conclusion(request, client, recorded, cancelling))
    ensures Honest(FactsOf(longer), next.outcome.value)
    ensures FactsOf(longer).commitIssued == client.commitStarted
  {
    FlagsRemember(request, log);
    longer, next := Record(request, log, client, Concluded(recorded, cancelling));
    FlagsRemember(request, longer);
    assert longer[..|log|] == log;
  }

  method Report(request: Request, env: Surroundings, receipt: Option<Receipt>, plan: Option<string>,
                commitStarted: bool, committed: bool, cancelled: bool, replayUnverified: bool, code: Option<string>,
                ghost client: Client)
    returns (r: Option<Outcome>)
    requires Agrees(client, receipt, plan, commitStarted, committed, cancelled, replayUnverified, false, code)
    requires client.cleanupOk == env.cleanupOk
    ensures r.None? <==> WritesRollbackEvent(request, client) && env.rollbackRaises
    ensures r.Some? ==> r.value == Conclusion(request, client, env.rollbackRecorded, env.callerCancelling)
  {
    if committed {
      if replayUnverified {
        return Some(Outcome(Committed, None, Some("AUDIT_COMMITTED_UNVERIFIED"), false, [], receipt, false));
      }
      var warnings: seq<string> := [];
      if !env.cleanupOk {
        warnings := warnings + ["LOAD_POST_COMMIT_CLEANUP_FAILED"];
      }
      if cancelled {
        warnings := warnings + ["LOAD_CANCELLED_AFTER_COMMIT"];
      }
      return Some(Outcome(Committed, plan, None, false, warnings, receipt, false));
    }
    if commitStarted || !env.cleanupOk {
      return Some(Outcome(Unknown, None, Some("LOAD_OUTCOME_UNKNOWN"), cancelled, [], None, false));
    }
    var auditGap, stopped := false, cancelled;
    if request.audit && request.signer {
      if env.rollbackRaises {
        return None;
      }
      auditGap := !env.rollbackRecorded;
      stopped := stopped || env.callerCancelling;
    }
    return Some(Outcome(if stopped then Cancelled else RolledBack, None,
                        Some(if code.Some? then code.value else "LOAD_DATABASE_FAILED"), stopped, [], None, auditGap));
  }
}
