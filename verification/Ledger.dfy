/** The durable idempotency ledger: claiming a key under its advisory lock and
    committing the marker, quarantine references and audit row of a load. */
module Ledger {
  import opened Wrappers
  import opened LoadContracts

  /** One row of execution_commits. A fingerprint is taken as the value it digests. */
  datatype Marker = Marker(binding: string, payload: Receipt, fingerprint: Receipt)

  function MarkerOf(request: Request, receipt: Receipt): Marker
  {
    Marker(request.binding, receipt, receipt)
  }

  predicate Matches(receipt: Receipt, mapping: Mapping)
  {
    && receipt.targetId == mapping.targetId
    && receipt.mappingFingerprint == mapping.fingerprint
    && receipt.databaseFingerprint == mapping.databaseFingerprint
    && receipt.normalizedFingerprint == mapping.normalizedFingerprint
  }

  /** The decision on the marker row that the SELECT under the lock returned. */
  function Claim(bytes: Receipt -> nat, row: Option<Marker>, request: Request): Result<Option<Receipt>, string>
  {
    match row
    case None => Ok(None)
    case Some(m) =>
      if m.binding != request.binding then Err("IDEMPOTENCY_KEY_CONFLICT")
      else if bytes(m.payload) > request.maxReceiptBytes then Err("LOAD_LEDGER_RECEIPT_INVALID")
      else if m.payload != m.fingerprint || m.payload.replayed || m.payload.attemptRun.Some?
              || !Matches(m.payload, request.mapping) then Err("LOAD_LEDGER_RECEIPT_INVALID")
      else Ok(Some(Replayed(m.payload, request.runId)))
  }

  /** A retry reads back the receipt its predecessor stored, marked as a replay, exactly
      when it has the same binding, room for the payload and the same mapping. */
  lemma {:induction false} ClaimReturnsStoredReceipt(bytes: Receipt -> nat, writer: Request, receipt: Receipt,
                                                     reader: Request)
    requires !receipt.replayed && receipt.attemptRun.None?
    ensures var reply := Claim(bytes, Some(MarkerOf(writer, receipt)), reader);
            && (reply.Ok? <==> && reader.binding == writer.binding
                               && bytes(receipt) <= reader.maxReceiptBytes
                               && Matches(receipt, reader.mapping))
            && (reply.Ok? ==> reply.value.Some? && IsReplayOf(receipt, reply.value.value, reader.runId))
            && (reply == Err("IDEMPOTENCY_KEY_CONFLICT") <==> reader.binding != writer.binding)
  {
  }

  /** Whatever row is found, a receipt is taken from it only if it is intact, within the size
      limit, no replay itself, and about this very request. */
  lemma {:induction false} ClaimTrustsOnlyItsOwn(bytes: Receipt -> nat, m: Marker, reader: Request)
    ensures var reply := Claim(bytes, Some(m), reader);
            && (reply.Ok? <==>
                 && m.binding == reader.binding && bytes(m.payload) <= reader.maxReceiptBytes && m.fingerprint == m.payload
                 && !m.payload.replayed && m.payload.attemptRun.None?
                 && m.payload.targetId == reader.mapping.targetId
                 && m.payload.mappingFingerprint == reader.mapping.fingerprint
                 && m.payload.databaseFingerprint == reader.mapping.databaseFingerprint
                 && m.payload.normalizedFingerprint == reader.mapping.normalizedFingerprint)
            && (reply == Err("IDEMPOTENCY_KEY_CONFLICT") <==> m.binding != reader.binding)
            && (reply.Err? && m.binding == reader.binding ==> reply.error == "LOAD_LEDGER_RECEIPT_INVALID")
  {
  }

  /** A hashed reference to one quarantined unit, with its serialized size. */
  datatype Reference = Reference(unit: string, codes: seq<string>, size: nat)

  const CHUNK := 100

  ghost function TotalSize(refs: seq<Reference>): nat
  {
    if |refs| == 0 then 0 else TotalSize(refs[..|refs| - 1]) + refs[|refs| - 1].size
  }

  ghost function Flatten(chunks: seq<seq<Reference>>): seq<Reference>
  {
    if |chunks| == 0 then [] else Flatten(chunks[..|chunks| - 1]) + chunks[|chunks| - 1]
  }

  lemma {:induction false} TotalSizeMonotone(refs: seq<Reference>, n: nat)
    requires n <= |refs|
    ensures TotalSize(refs[..n]) <= TotalSize(refs)
    decreases |refs|
  {
    if n < |refs| {
      var front := refs[..|refs| - 1];
      TotalSizeMonotone(front, n);
      assert front[..n] == refs[..n];
    } else {
      assert refs[..n] == refs;
    }
  }

  lemma {:induction false} TotalSizeNext(refs: seq<Reference>, i: nat)
    requires i < |refs|
    ensures TotalSize(refs[..i + 1]) == TotalSize(refs[..i]) + refs[i].size
  {
    assert refs[..i + 1][..i] == refs[..i];
  }

  /** The statements after `before` insert exactly the references, in order, at most one
      hundred per statement. */
  ghost predicate Appended(before: seq<seq<Reference>>, after: seq<seq<Reference>>, refs: seq<Reference>)
  {
    && before <= after
    && Flatten(after[|before|..]) == refs
    && forall i :: |before| <= i < |after| ==> 0 < |after[i]| <= 100
  }

  lemma {:induction false} NothingAppended(before: seq<seq<Reference>>)
    ensures Appended(before, before, [])
  {
  }

  lemma {:induction false} AppendChunk(before: seq<seq<Reference>>, after: seq<seq<Reference>>, refs: seq<Reference>,
                                       values: seq<Reference>)
    requires Appended(before, after, refs) && 0 < |values| <= CHUNK
    ensures Appended(before, after + [values], refs + values)
  {
    var more := (after + [values])[|before|..];
    assert more[..|more| - 1] == after[|before|..];
  }

  /** One chunk; the running total stops at the first reference beyond the budget. */
  method Gather(refs: seq<Reference>, offset: nat, end: nat, before: nat, ghost start: nat, max: nat)
    returns (values: seq<Reference>, total: nat)
    requires offset <= end <= |refs| && before == start + TotalSize(refs[..offset]) <= max
    ensures total <= max ==> values == refs[offset..end] && total == start + TotalSize(refs[..end])
    ensures total > max ==> start + TotalSize(refs) > max
  {
    values, total := [], before;
    for i := offset to end
      invariant values == refs[offset..i]
      invariant total == start + TotalSize(refs[..i]) <= max
    {
      TotalSizeNext(refs, i);
      assert refs[offset..i + 1] == refs[offset..i] + [refs[i]];
      total := total + refs[i].size;
      if total > max {
        TotalSizeMonotone(refs, i + 1);
        return;
      }
      values := values + [refs[i]];
    }
  }

  /** The ledger tables as one open transaction sees them. */
  class LedgerTables {
    var commits: map<string, Marker>
    var quarantine: seq<seq<Reference>>
    var audit: seq<(string, Receipt)>
    const bytes: Receipt -> nat

    constructor (bytes: Receipt -> nat)
      ensures this.bytes == bytes && commits == map[] && quarantine == [] && audit == []
    {
      this.bytes := bytes;
      commits, quarantine, audit := map[], [], [];
    }

    method InsertReferences(start: nat, refs: seq<Reference>, max: nat) returns (fits: bool)
      requires start <= max
      modifies this`quarantine
      ensures fits <==> start + TotalSize(refs) <= max
      ensures fits ==> Appended(old(quarantine), quarantine, refs)
    {
      var total := start;
      var offset := 0;
      assert refs[..0] == [];
      NothingAppended(quarantine);
      while offset < |refs|
        invariant 0 <= offset <= |refs|
        invariant total == start + TotalSize(refs[..offset]) <= max
        invariant Appended(old(quarantine), quarantine, refs[..offset])
      {
        var end := if offset + CHUNK < |refs| then offset + CHUNK else |refs|;
        var values;
        values, total := Gather(refs, offset, end, total, start, max);
        if total > max {
          return false;
        }
        AppendChunk(old(quarantine), quarantine, refs[..offset], values);
        assert refs[..offset] + values == refs[..end];
        quarantine := quarantine + [values];
        offset := end;
      }
      assert refs[..|refs|] == refs;
      return true;
    }

    /** Inserts the marker, the quarantine references in statements of at most one
        hundred rows, and the audit row; the payload budget covers them together. */
    method Commit(key: string, request: Request, receipt: Receipt, refs: seq<Reference>)
      returns (reply: Result<(), string>)
      modifies this
      ensures reply.Ok? <==>
        && key !in old(commits)
        && bytes(receipt) + TotalSize(refs) <= request.maxReceiptBytes
      ensures reply.Ok? ==>
        && commits == old(commits)[key := MarkerOf(request, receipt)]
        && audit == old(audit) + [(key, receipt)]
        && Appended(old(quarantine), quarantine, refs)
      ensures reply == Err("LOAD_DUPLICATE_KEY") <==> key in old(commits) && bytes(receipt) <= request.maxReceiptBytes
      ensures reply.Err? ==> reply.error == "LOAD_DUPLICATE_KEY" || reply.error == "SECURITY_LIMIT_EXCEEDED"
      ensures forall k :: k in old(commits) ==> k in commits && commits[k] == old(commits)[k]
    {
      if bytes(receipt) > request.maxReceiptBytes {
        TotalSizeMonotone(refs, 0);
        return Err("SECURITY_LIMIT_EXCEEDED");
      }
      if key in commits {
        return Err("LOAD_DUPLICATE_KEY");
      }
      commits := commits[key := MarkerOf(request, receipt)];
      var fits := InsertReferences(bytes(receipt), refs, request.maxReceiptBytes);
      if !fits {
        return Err("SECURITY_LIMIT_EXCEEDED");
      }
      audit := audit + [(key, receipt)];
      return Ok(());
    }
  }
}
