/** Record counters of a validation report: global findings are counted without expanding
    them, with the result of classifying every record by itself. */
module FindingCounts {
  import opened Wrappers

  datatype Severity = Info | Warning | Error | Critical

  datatype Outcome = Failed | Unverified | Warned | Informed

  /** `record` is `None` for a finding about the whole snapshot. */
  datatype Finding = Finding(outcome: Outcome, severity: Severity, record: Option<nat>)

  // ---------------------------------------------------------------------------
  // Record by record
  // ---------------------------------------------------------------------------

  predicate Concerns(f: Finding, record: nat)
  {
    f.record.None? || f.record.value == record
  }

  ghost predicate HasFailed(findings: seq<Finding>, record: nat)
  {
    exists f :: f in findings && f.outcome.Failed? && Concerns(f, record)
  }

  ghost predicate HasUnverified(findings: seq<Finding>, record: nat)
  {
    exists f :: f in findings && f.outcome.Unverified? && Concerns(f, record)
  }

  ghost predicate HasWarning(findings: seq<Finding>, record: nat)
  {
    exists f :: f in findings && f.severity.Warning? && Concerns(f, record)
  }

  datatype Kind = Valid | Invalid | Unresolved | WithWarning

  /** The class of one record; every record is valid, invalid or unresolved. */
  ghost predicate Is(findings: seq<Finding>, record: nat, kind: Kind)
  {
    match kind
    case Invalid => HasFailed(findings, record)
    case Unresolved => HasUnverified(findings, record) && !HasFailed(findings, record)
    case Valid => !HasUnverified(findings, record) && !HasFailed(findings, record)
    case WithWarning => HasWarning(findings, record)
  }

  ghost function Count(findings: seq<Finding>, total: nat, kind: Kind): nat
  {
    if total == 0 then 0 else Count(findings, total - 1, kind) + if Is(findings, total - 1, kind) then 1 else 0
  }

  /** The three classes partition the records. */
  lemma {:induction false} ClassesPartition(findings: seq<Finding>, total: nat)
    ensures Count(findings, total, Valid) + Count(findings, total, Invalid) + Count(findings, total, Unresolved) == total
  {
    if total > 0 {
      ClassesPartition(findings, total - 1);
    }
  }

  ghost predicate Below(total: nat, s: set<nat>)
  {
    forall i :: i in s ==> i < total
  }

  ghost function Members(s: set<nat>, total: nat): nat
  {
    if total == 0 then 0 else Members(s, total - 1) + if total - 1 in s then 1 else 0
  }

  lemma {:induction false} MembersWithout(s: set<nat>, i: nat, total: nat)
    requires total <= i
    ensures Members(s - {i}, total) == Members(s, total)
  {
    if total > 0 {
      MembersWithout(s, i, total - 1);
    }
  }

  lemma {:induction false} MembersIsSize(s: set<nat>, total: nat)
    requires Below(total, s)
    ensures Members(s, total) == |s|
    decreases total
  {
    if total == 0 {
      assert s == {};
    } else {
      var rest := s - {total - 1};
      MembersIsSize(rest, total - 1);
      MembersWithout(s, total - 1, total - 1);
      assert s == if total - 1 in s then rest + {total - 1} else rest;
    }
  }

  lemma {:induction false} CountIsMembers(findings: seq<Finding>, total: nat, kind: Kind, s: set<nat>)
    requires forall i: nat :: i < total ==> (i in s <==> Is(findings, i, kind))
    ensures Count(findings, total, kind) == Members(s, total)
  {
    if total > 0 {
      CountIsMembers(findings, total - 1, kind, s);
    }
  }

  /** Records of a kind that are known as a set are counted by its size. */
  lemma {:induction false} CountIsSize(findings: seq<Finding>, total: nat, kind: Kind, s: set<nat>)
    requires Below(total, s) && forall i: nat :: i < total ==> (i in s <==> Is(findings, i, kind))
    ensures Count(findings, total, kind) == |s|
  {
    CountIsMembers(findings, total, kind, s);
    MembersIsSize(s, total);
  }

  lemma {:induction false} CountAll(findings: seq<Finding>, total: nat, kind: Kind, all: bool)
    requires forall i: nat :: i < total ==> (Is(findings, i, kind) <==> all)
    ensures Count(findings, total, kind) == if all then total else 0
  {
    if total > 0 {
      CountAll(findings, total - 1, kind, all);
    }
  }

  lemma {:induction false} CountPositive(findings: seq<Finding>, total: nat, kind: Kind, record: nat)
    requires record < total && Is(findings, record, kind)
    ensures Count(findings, total, kind) > 0
  {
    if record < total - 1 {
      CountPositive(findings, total - 1, kind, record);
    }
  }

  lemma {:induction false} PositiveCount(findings: seq<Finding>, total: nat, kind: Kind) returns (record: nat)
    requires Count(findings, total, kind) > 0
    ensures record < total && Is(findings, record, kind)
  {
    if Is(findings, total - 1, kind) {
      record := total - 1;
    } else {
      record := PositiveCount(findings, total - 1, kind);
    }
  }

  // ---------------------------------------------------------------------------
  // The counters
  // ---------------------------------------------------------------------------

  datatype Counters = Counters(valid: nat, invalid: nat, unresolved: nat, warnings: nat)

  ghost function Naive(findings: seq<Finding>, total: nat): Counters
  {
    Counters(Count(findings, total, Valid), Count(findings, total, Invalid),
             Count(findings, total, Unresolved), Count(findings, total, WithWarning))
  }

  predicate OrdinalsKnown(findings: seq<Finding>, total: nat)
  {
    forall f :: f in findings ==> f.record.None? || f.record.value < total
  }

  /** The marks of one kind of finding: a flag for all records, and single records. */
  ghost predicate Marks(findings: seq<Finding>, kind: Kind, total: nat, all: bool, some: set<nat>)
    requires kind != Valid
  {
    && Below(total, some)
    && (all <==> exists f :: f in findings && Marking(f, kind) && f.record.None?)
    && (forall i: nat :: i in some <==> exists f :: f in findings && Marking(f, kind) && f.record == Some(i))
  }

  predicate Marking(f: Finding, kind: Kind)
  {
    match kind
    case Invalid => f.outcome.Failed?
    case Unresolved => f.outcome.Unverified?
    case WithWarning => f.severity.Warning?
    case Valid => false
  }

  lemma {:induction false} MarksNext(findings: seq<Finding>, f: Finding, kind: Kind, total: nat, all: bool,
                                     some: set<nat>)
    requires kind != Valid && Marks(findings, kind, total, all, some) && (f.record.Some? ==> f.record.value < total)
    ensures Marks(findings + [f], kind, total,
                  all || (Marking(f, kind) && f.record.None?),
                  if Marking(f, kind) && f.record.Some? then some + {f.record.value} else some)
  {
    var more := findings + [f];
    assert f in more && forall g :: g in findings ==> g in more;
    forall i: nat | i in some
      ensures exists g :: g in more && Marking(g, kind) && g.record == Some(i)
    {
      var g :| g in findings && Marking(g, kind) && g.record == Some(i);
      assert g in more;
    }
  }

  lemma {:induction false} MarkedRecords(findings: seq<Finding>, kind: Kind, total: nat, all: bool, some: set<nat>,
                                         i: nat)
    requires kind != Valid && Marks(findings, kind, total, all, some)
    ensures (exists f :: f in findings && Marking(f, kind) && Concerns(f, i)) <==> all || i in some
  {
    if all || i in some {
      var f :| f in findings && Marking(f, kind) && (f.record.None? || f.record == Some(i));
      assert Concerns(f, i);
    }
    if exists f :: f in findings && Marking(f, kind) && Concerns(f, i) {
      var f :| f in findings && Marking(f, kind) && Concerns(f, i);
      assert f.record.None? || f.record == Some(i);
    }
  }

  /** From the marks to the counters, as the last lines of `_finding_counts` compute them. */
  function Totals(total: nat, allInvalid: bool, invalid: set<nat>, allUnresolved: bool, unresolved: set<nat>,
                  allWarnings: bool,
                  warnings: set<nat>): (int, int, int, int)
  {
    var invalidCount: int := if allInvalid then total else |invalid|;
    var unresolvedCount: int :=
      if allInvalid then 0 else if allUnresolved then total - invalidCount else |unresolved - invalid|;
    (total - invalidCount - unresolvedCount, invalidCount, unresolvedCount, if allWarnings then total else |warnings|)
  }

  lemma {:induction false} TotalsAreNaive(findings: seq<Finding>, total: nat, allInvalid: bool, invalid: set<nat>,
                                          allUnresolved: bool,
                                          unresolved: set<nat>, allWarnings: bool, warnings: set<nat>)
    requires Marks(findings, Invalid, total, allInvalid, invalid)
    requires Marks(findings, Unresolved, total, allUnresolved, unresolved)
    requires Marks(findings, WithWarning, total, allWarnings, warnings)
    ensures var n := Naive(findings, total);
            Totals(total, allInvalid, invalid, allUnresolved, unresolved, allWarnings, warnings) ==
            (n.valid, n.invalid, n.unresolved, n.warnings)
  {
    InvalidCount(findings, total, allInvalid, invalid);
    UnresolvedCount(findings, total, allInvalid, invalid, allUnresolved, unresolved);
    WarningCount(findings, total, allWarnings, warnings);
    TotalsOfCounts(findings, total, allInvalid, invalid, allUnresolved, unresolved, allWarnings, warnings);
  }

  lemma {:induction false} TotalsOfCounts(findings: seq<Finding>, total: nat, allInvalid: bool, invalid: set<nat>,
                                          allUnresolved: bool, unresolved: set<nat>, allWarnings: bool, warnings: set<nat>)
    requires Count(findings, total, Invalid) == if allInvalid then total else |invalid|
    requires Count(findings, total, Unresolved) ==
             if allInvalid then 0 else if allUnresolved then total - |invalid| else |unresolved - invalid|
    requires Count(findings, total, WithWarning) == if allWarnings then total else |warnings|
    ensures var n := Naive(findings, total);
            Totals(total, allInvalid, invalid, allUnresolved, unresolved, allWarnings, warnings) ==
            (n.valid, n.invalid, n.unresolved, n.warnings)
  {
    ClassesPartition(findings, total);
  }

  lemma {:induction false} WarningCount(findings: seq<Finding>, total: nat, allWarnings: bool, warnings: set<nat>)
    requires Marks(findings, WithWarning, total, allWarnings, warnings)
    ensures Count(findings, total, WithWarning) == if allWarnings then total else |warnings|
  {
    forall i: nat
      ensures Is(findings, i, WithWarning) <==> allWarnings || i in warnings
    {
      MarkedRecords(findings, WithWarning, total, allWarnings, warnings, i);
    }
    if allWarnings {
      CountAll(findings, total, WithWarning, true);
    } else {
      CountIsSize(findings, total, WithWarning, warnings);
    }
  }

  lemma {:induction false} InvalidCount(findings: seq<Finding>, total: nat, allInvalid: bool, invalid: set<nat>)
    requires Marks(findings, Invalid, total, allInvalid, invalid)
    ensures Count(findings, total, Invalid) == if allInvalid then total else |invalid|
    ensures forall i: nat :: HasFailed(findings, i) <==> allInvalid || i in invalid
  {
    forall i: nat
      ensures HasFailed(findings, i) <==> allInvalid || i in invalid
    {
      MarkedRecords(findings, Invalid, total, allInvalid, invalid, i);
    }
    if allInvalid {
      CountAll(findings, total, Invalid, true);
    } else {
      CountIsSize(findings, total, Invalid, invalid);
    }
  }

  lemma {:induction false} UnresolvedCount(findings: seq<Finding>, total: nat, allInvalid: bool, invalid: set<nat>,
                                           allUnresolved: bool,
                                           unresolved: set<nat>)
    requires Marks(findings, Invalid, total, allInvalid, invalid)
    requires Marks(findings, Unresolved, total, allUnresolved, unresolved)
    ensures Count(findings, total, Unresolved) ==
            if allInvalid then 0 else if allUnresolved then total - |invalid| else |unresolved - invalid|
  {
    InvalidCount(findings, total, allInvalid, invalid);
    forall i: nat
      ensures HasUnverified(findings, i) <==> allUnresolved || i in unresolved
    {
      MarkedRecords(findings, Unresolved, total, allUnresolved, unresolved, i);
    }
    if allInvalid {
      CountAll(findings, total, Unresolved, false);
    } else if allUnresolved {
      CountAll(findings, total, Valid, false);
      ClassesPartition(findings, total);
    } else {
      CountIsSize(findings, total, Unresolved, unresolved - invalid);
    }
  }

  /** `_finding_counts`; `None` for an unknown record ordinal. */
  method FindingCounts(findings: seq<Finding>, total: nat) returns (r: Option<(int, int, int, int)>)
    ensures r.Some? <==> OrdinalsKnown(findings, total)
    ensures r.Some? ==> var n := Naive(findings, total); r.value == (n.valid, n.invalid, n.unresolved, n.warnings)
  {
    var invalid: set<nat>, unresolved: set<nat>, warnings: set<nat> := {}, {}, {};
    var allInvalid, allUnresolved, allWarnings := false, false, false;
    for k := 0 to |findings|
      invariant OrdinalsKnown(findings[..k], total)
      invariant Marks(findings[..k], Invalid, total, allInvalid, invalid)
      invariant Marks(findings[..k], Unresolved, total, allUnresolved, unresolved)
      invariant Marks(findings[..k], WithWarning, total, allWarnings, warnings)
    {
      var f := findings[k];
      assert findings[..k + 1] == findings[..k] + [f];
      if f.record.Some? && f.record.value >= total {
        return None;
      }
      MarksNext(findings[..k], f, Invalid, total, allInvalid, invalid);
      MarksNext(findings[..k], f, Unresolved, total, allUnresolved, unresolved);
      MarksNext(findings[..k], f, WithWarning, total, allWarnings, warnings);
      if f.outcome.Failed? {
        if f.record.None? { allInvalid := true; } else { invalid := invalid + {f.record.value}; }
      } else if f.outcome.Unverified? {
        if f.record.None? { allUnresolved := true; } else { unresolved := unresolved + {f.record.value}; }
      }
      if f.severity.Warning? {
        if f.record.None? { allWarnings := true; } else { warnings := warnings + {f.record.value}; }
      }
    }
    assert findings[..|findings|] == findings;
    TotalsAreNaive(findings, total, allInvalid, invalid, allUnresolved, unresolved, allWarnings, warnings);
    r := Some(Totals(total, allInvalid, invalid, allUnresolved, unresolved, allWarnings, warnings));
  }

  // ---------------------------------------------------------------------------
  // Reports
  // ---------------------------------------------------------------------------

  datatype Decision = Accepted | NeedsReview | Rejected

  datatype Report = Report(
    decision: Decision, complete: bool, total: nat, valid: nat, invalid: nat, unresolved: nat, warnings: nat,
    requiredValues: nat, verifiedValues: nat, required: set<string>, completed: set<string>, findings: seq<Finding>)

  predicate AnyOutcome(findings: seq<Finding>, outcome: Outcome)
  {
    exists f :: f in findings && f.outcome == outcome
  }

  function ExpectedDecision(r: Report): Decision
  {
    if AnyOutcome(r.findings, Failed) then Rejected
    else if !r.complete || AnyOutcome(r.findings, Unverified) then NeedsReview
    else Accepted
  }

  /** The counters and the decision of a consistent report, stated record by record. */
  ghost predicate Consistently(r: Report)
  {
    && r.verifiedValues <= r.requiredValues && "provenance" in r.required
    && (r.complete <==> r.required <= r.completed)
    && OrdinalsKnown(r.findings, r.total)
    && Naive(r.findings, r.total) == Counters(r.valid, r.invalid, r.unresolved, r.warnings)
    && r.decision == ExpectedDecision(r)
    && (r.decision.Accepted? ==> r.verifiedValues == r.requiredValues)
  }

  lemma {:induction false} WarningsWithinTotal(findings: seq<Finding>, total: nat, kind: Kind)
    ensures Count(findings, total, kind) <= total
  {
    if total > 0 {
      WarningsWithinTotal(findings, total - 1, kind);
    }
  }

  /** The checks of a report in the order in which they are made. */
  method ValidateReport(r: Report) returns (ok: bool)
    ensures ok <==> Consistently(r)
  {
    ClassesPartition(r.findings, r.total);
    WarningsWithinTotal(r.findings, r.total, WithWarning);
    if r.valid + r.invalid + r.unresolved != r.total {
      return false;
    }
    if r.warnings > r.total || r.verifiedValues > r.requiredValues {
      return false;
    }
    if "provenance" !in r.required || r.complete != (r.required <= r.completed) {
      return false;
    }
    if !OrdinalsKnown(r.findings, r.total) {
      return false;
    }
    if r.decision.Accepted? && (!r.complete || AnyOutcome(r.findings, Unverified) || r.verifiedValues != r.requiredValues) {
      return false;
    }
    if r.decision != ExpectedDecision(r) {
      return false;
    }
    var counts := FindingCounts(r.findings, r.total);
    ok := counts == Some((r.valid, r.invalid, r.unresolved, r.warnings));
  }

  /** An accepted report is complete: every required check was made, the one of provenance among
      them, every value that needs evidence has it, and every record is valid. */
  lemma {:induction false} AcceptedMeansAllValid(r: Report)
    requires Consistently(r) && r.decision.Accepted?
    ensures r.valid == r.total && r.invalid == 0 && r.unresolved == 0
    ensures r.required <= r.completed && "provenance" in r.completed && r.verifiedValues == r.requiredValues
  {
    CountAll(r.findings, r.total, Invalid, false);
    CountAll(r.findings, r.total, Unresolved, false);
    ClassesPartition(r.findings, r.total);
  }

  /** A report that is about any records needs a review exactly when none of them is invalid and
      some check was not made or some record is open. */
  lemma {:induction false} ReviewMeansOpen(r: Report)
    requires Consistently(r) && r.total > 0
    ensures r.decision.NeedsReview? <==> r.invalid == 0 && (r.unresolved > 0 || !(r.required <= r.completed))
  {
    RejectedMeansSomeInvalid(r);
    if r.unresolved > 0 {
      var record := PositiveCount(r.findings, r.total, Unresolved);
      var f :| f in r.findings && f.outcome.Unverified? && Concerns(f, record);
    }
    if AnyOutcome(r.findings, Unverified) && r.invalid == 0 {
      var f :| f in r.findings && f.outcome == Unverified;
      var record := if f.record.Some? then f.record.value else 0;
      assert Concerns(f, record) && HasUnverified(r.findings, record);
      if HasFailed(r.findings, record) {
        CountPositive(r.findings, r.total, Invalid, record);
      }
      CountPositive(r.findings, r.total, Unresolved, record);
    }
  }

  /** A report that is about any records is rejected exactly when one of them is invalid. */
  lemma {:induction false} RejectedMeansSomeInvalid(r: Report)
    requires Consistently(r) && r.total > 0
    ensures r.decision.Rejected? <==> r.invalid > 0
  {
    if AnyOutcome(r.findings, Failed) {
      var f :| f in r.findings && f.outcome == Failed;
      var record := if f.record.Some? then f.record.value else 0;
      assert Concerns(f, record) && HasFailed(r.findings, record);
      CountPositive(r.findings, r.total, Invalid, record);
    }
    if r.invalid > 0 {
      var record := PositiveCount(r.findings, r.total, Invalid);
      var f :| f in r.findings && f.outcome.Failed? && Concerns(f, record);
    }
  }

  /** Without records, a failed check of the whole snapshot rejects although nothing is
      invalid; this is the only way to be rejected without an invalid record. */
  lemma {:induction false} RejectedWithoutInvalidRecords(r: Report)
    requires Consistently(r)
    ensures r.decision.Rejected? && r.invalid == 0 <==> r.total == 0 && AnyOutcome(r.findings, Failed)
  {
    if r.total > 0 {
      RejectedMeansSomeInvalid(r);
    }
  }
}
