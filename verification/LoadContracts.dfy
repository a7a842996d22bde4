/** The results of one load: the committed receipt, its log summary, and the outcome
    of an attempt. */
module LoadContracts {
  import opened Wrappers

  datatype Status = Committed | RolledBack | Cancelled | Unknown | Failed

  datatype Receipt = Receipt(
    runId: string, targetId: string,
    databaseFingerprint: string, normalizedFingerprint: string, mappingFingerprint: string,
    planFingerprint: string, policyFingerprint: string,
    inserted: nat, updated: nat, skipped: nat, quarantined: nat,
    loadedRecords: nat, rejectedRecords: nat,
    replayed: bool, attemptRun: Option<string>, auditHead: Option<string>)

  /** The receipt `r` of an earlier attempt as `attemptRun` was told of it: marked as a replay to
      that attempt, and otherwise unchanged. */
  ghost predicate IsReplayOf(r: Receipt, told: Receipt, attemptRun: string)
  {
    && told.replayed && told.attemptRun == Some(attemptRun)
    && told.(replayed := false, attemptRun := None) == r
  }

  datatype Summary = Summary(replayed: bool, inserted: nat, updated: nat, skipped: nat, quarantined: nat)

  /** A replay reports no new writes; its other counts describe the original run. */
  function SafeSummary(r: Receipt): Summary
  {
    Summary(r.replayed, if r.replayed then 0 else r.inserted, if r.replayed then 0 else r.updated, r.skipped, r.quarantined)
  }

  /** The receipt as a later attempt hands it out. */
  function Replayed(r: Receipt, attemptRun: string): Receipt
  {
    r.(replayed := true, attemptRun := Some(attemptRun))
  }

  datatype Outcome = Outcome(
    status: Status, plan: Option<string>, code: Option<string>, cancelled: bool,
    warnings: seq<string>, result: Option<Receipt>, auditGap: bool)

  /** What the mapping of a request pins down about the load. */
  datatype Mapping = Mapping(
    targetId: string, fingerprint: string, databaseFingerprint: string, normalizedFingerprint: string)

  /** One call of the loader. The key is present exactly when a ledger is configured. */
  datatype Request = Request(
    runId: string, key: Option<string>, binding: string, mapping: Mapping,
    audit: bool, signer: bool, maxReceiptBytes: nat)
}
