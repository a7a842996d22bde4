/** The audit store of one chain inside one database transaction, and the append with
    compare-and-swap retries on top of it. */
module AuditStore {
  import opened Wrappers
  import opened AuditLog

  /** What the chain looks like to the n-th statement, given how it looked before: other
      transactions may have committed further rows in between. */
  type Others = (nat, seq<Envelope>) -> seq<Envelope>

  /** Other transactions only add to a chain and leave it intact. */
  ghost predicate WellBehaved(sign: Signer, cap: nat, others: Others)
  {
    forall n, s :: IsChain(sign, cap, s) ==> s <= others(n, s) && IsChain(sign, cap, others(n, s))
  }

  /** Which awaits fail and with what: a database error, a row that cannot be read, a deadline,
      a missing key, a cancellation. */
  type Faults = nat -> Option<string>

  const RETRIES := 16
  const CANCELLED := "CancelledError"
  const OPERATION_FAILED := "AUDIT_OPERATION_FAILED"

  const KNOWN_CODES := {
    "AUDIT_CHAIN_INVALID", "AUDIT_EVENT_INVALID", "AUDIT_KEY_UNAVAILABLE", "AUDIT_LIMIT_EXCEEDED",
    "AUDIT_SCHEMA_INVALID", "AUDIT_PERMISSION_DENIED", "AUDIT_CHAIN_EMPTY", "AUDIT_PROCESSING_TIMEOUT",
    "AUDIT_DURABILITY_REQUIRED"
  }

  /** `_safe`: foreign errors lose their diagnostics, a cancellation passes through. */
  function Sanitized(code: string): (reported: string)
    ensures reported in KNOWN_CODES || reported == "CancelledError" || reported == "AUDIT_OPERATION_FAILED"
    ensures code in KNOWN_CODES || code == "CancelledError" ==> reported == code
  {
    if code == CANCELLED || code in KNOWN_CODES then code else OPERATION_FAILED
  }

  function FaultAt(faults: Faults, k: nat): Option<string>
  {
    if faults(k).Some? then Some(Sanitized(faults(k).value)) else None
  }

  ghost predicate FailedIn(faults: Faults, from: nat, end: nat, error: string)
  {
    exists k: nat :: from <= k < end && FaultAt(faults, k) == Some(error)
  }

  ghost predicate AllIn(some: seq<Envelope>, all: seq<Envelope>)
  {
    forall e :: e in some ==> e in all
  }

  lemma {:induction false} StillIn(some: seq<Envelope>, before: seq<Envelope>, after: seq<Envelope>)
    requires AllIn(some, before) && before <= after
    ensures AllIn(some, after)
  {
    forall e | e in some
      ensures e in after
    {
      var i :| 0 <= i < |before| && before[i] == e;
      assert after[i] == e;
    }
  }

  lemma {:induction false} PrefixThrough(a: seq<Envelope>, b: seq<Envelope>, c: seq<Envelope>)
    requires a <= b <= c
    ensures a <= c
  {
    assert c[..|a|] == b[..|a|];
  }

  lemma {:induction false} OthersKeepChains(sign: Signer, cap: nat, others: Others, n: nat, s: seq<Envelope>)
    requires WellBehaved(sign, cap, others) && IsChain(sign, cap, s)
    ensures s <= others(n, s) && IsChain(sign, cap, others(n, s))
  {
  }

  class ChainStore {
    const cap: nat
    const others: Others
    const faults: Faults
    var transaction: Option<nat>
    var prepared: Option<nat>
    var chain: seq<Envelope>
    var intents: seq<Identity>
    var locked: bool
    var torn: bool
    var position: nat
    ghost var own: seq<Envelope>

    constructor (cap: nat, others: Others, faults: Faults, transaction: Option<nat>, chain: seq<Envelope>)
      ensures this.cap == cap && this.others == others && this.faults == faults
      ensures this.transaction == transaction && this.chain == chain
      ensures prepared.None? && !locked && !torn && own == [] && intents == [] && position == 0
      ensures !Usable()
    {
      this.cap, this.others, this.faults, this.transaction, this.chain := cap, others, faults, transaction, chain;
      prepared, locked, torn, own, intents, position := None, false, false, [], [], 0;
    }

    /** The open transaction is the one that was prepared. */
    predicate Usable()
      reads this
    {
      prepared.Some? && transaction == prepared
    }

    /** The transaction has written exactly the events whose intents it has written, but for
        the last one if its intent could not be written. */
    ghost predicate Valid(sign: Signer)
      reads this
    {
      && IsChain(sign, cap, chain)
      && |own| == |intents| + (if torn then 1 else 0)
      && AllIn(own, chain)
      && (forall i :: 0 <= i < |intents| ==> intents[i] == IdentityOf(own[i]))
    }

    /** What the n-th statement ends with; in a transaction that a failed statement has torn
        every further one fails. */
    function Error(n: nat): Option<string>
      reads this
    {
      if torn then Some(OPERATION_FAILED) else FaultAt(faults, n)
    }

    method Statement() returns (error: Option<string>)
      modifies this`position
      ensures position == old(position) + 1 && error == old(Error(position))
    {
      error := Error(position);
      position := position + 1;
    }

    /** The checks of layout and grants are two statements. */
    method Prepare() returns (r: Result<bool, string>)
      modifies this`prepared, this`position
      ensures r.Ok? <==> transaction.Some? && old(Error(position)).None? && old(Error(position + 1)).None?
      ensures r.Ok? ==> Usable() && prepared == transaction
      ensures r.Err? ==> prepared == old(prepared)
      ensures r.Err? ==> r.error == if transaction.None? then "AUDIT_DURABILITY_REQUIRED"
                                    else if old(Error(position)).Some? then old(Error(position)).value
                                    else old(Error(position + 1)).value
    {
      if transaction.None? {
        return Err("AUDIT_DURABILITY_REQUIRED");
      }
      var error := Statement();
      if error.None? {
        error := Statement();
      }
      if error.Some? {
        return Err(error.value);
      }
      prepared := transaction;
      r := Ok(true);
    }

    /** A read sees a new snapshot; nobody else can add to the chain while it is locked. */
    method Snapshot(ghost sign: Signer) returns (error: Option<string>)
      requires Valid(sign) && WellBehaved(sign, cap, others)
      modifies this`chain, this`position
      ensures Valid(sign) && old(chain) <= chain && (locked ==> chain == old(chain))
      ensures position == old(position) + 1 && error == old(Error(position))
    {
      if !locked {
        OthersKeepChains(sign, cap, others, position, chain);
        StillIn(own, chain, others(position, chain));
        chain := others(position, chain);
      }
      error := Statement();
    }

    /** `find` and `tail` are the two reads that precede an append. */
    method Find(id: string, ghost sign: Signer) returns (r: Result<Option<Envelope>, string>)
      requires Valid(sign) && WellBehaved(sign, cap, others)
      modifies this`chain, this`position
      ensures Valid(sign) && old(chain) <= chain && (locked ==> chain == old(chain))
      ensures r.Ok? <==> Usable() && old(Error(position)).None?
      ensures r.Err? ==> r.error == if !Usable() then "AUDIT_DURABILITY_REQUIRED" else old(Error(position)).value
      ensures r.Ok? && r.value.None? ==> !HasEvent(chain, id)
      ensures r.Ok? && r.value.Some? ==> r.value.value in chain && r.value.value.event.id == id
      ensures position == old(position) + if Usable() then 1 else 0
    {
      if !Usable() {
        return Err("AUDIT_DURABILITY_REQUIRED");
      }
      var error := Snapshot(sign);
      if error.Some? {
        return Err(error.value);
      }
      for i := 0 to |chain|
        invariant forall k :: 0 <= k < i ==> chain[k].event.id != id
      {
        if chain[i].event.id == id {
          return Ok(Some(chain[i]));
        }
      }
      r := Ok(None);
    }

    method Tail(ghost sign: Signer) returns (r: Result<Option<Envelope>, string>)
      requires Valid(sign) && WellBehaved(sign, cap, others)
      modifies this`chain, this`position
      ensures Valid(sign) && old(chain) <= chain && (locked ==> chain == old(chain))
      ensures r.Ok? <==> Usable() && old(Error(position)).None?
      ensures r.Err? ==> r.error == if !Usable() then "AUDIT_DURABILITY_REQUIRED" else old(Error(position)).value
      ensures r.Ok? ==> r.value == TailBefore(chain, |chain|)
      ensures position == old(position) + if Usable() then 1 else 0
    {
      if !Usable() {
        return Err("AUDIT_DURABILITY_REQUIRED");
      }
      var error := Snapshot(sign);
      if error.Some? {
        return Err(error.value);
      }
      HighestIsLast(sign, cap, chain);
      r := Ok(Highest(chain));
    }

    /** The two reads of `compare_append` under the lock, and what it makes of them. */
    method MayAppend(e: Envelope, expected: Option<Head>, ghost sign: Signer,
                     ghost seen: Option<Envelope>) returns (r: Result<bool, string>)
      requires Valid(sign) && WellBehaved(sign, cap, others) && locked && Usable() && e.sequence <= cap
      requires Attested(sign, seen, e) && expected == HeadOfTail(seen) && (seen.Some? ==> seen.value in chain)
      modifies this`chain, this`position
      ensures chain == old(chain) && old(position) < position
      ensures r == Ok(true) ==> IsChain(sign, cap, chain + [e]) && Numbered(seen, e) && !torn
      ensures r == Ok(false) ==> HasEvent(chain, e.event.id) || HeadOfTail(TailBefore(chain, |chain|)) != expected
      ensures r.Err? ==>
                || Failed(torn, old(position), r.error)
                || (r.error == "AUDIT_CHAIN_INVALID" && TailBefore(chain, |chain|) == seen && !Numbered(seen, e))
    {
      var tail := Tail(sign);
      if tail.Err? {
        assert torn || FaultAt(faults, old(position)) == Some(tail.error);
        return Err(tail.error);
      }
      if HeadOfTail(tail.value) != expected {
        return Ok(false);
      }
      var found := Find(e.event.id, sign);
      if found.Err? {
        assert torn || FaultAt(faults, old(position) + 1) == Some(found.error);
        return Err(found.error);
      }
      if found.value.Some? {
        return Ok(false);
      }
      SameTail(sign, cap, chain, seen, tail.value);
      if !Numbered(tail.value, e) {
        return Err("AUDIT_CHAIN_INVALID");
      }
      ChainGrows(sign, cap, chain, e);
      r := Ok(true);
    }

    /** The event row and its delivery intent. If the second statement fails, the transaction
        is torn. */
    method Insert(e: Envelope, ghost sign: Signer) returns (error: Option<string>)
      requires Valid(sign) && !torn && IsChain(sign, cap, chain + [e])
      modifies this`chain, this`position, this`intents, this`own, this`torn
      ensures Valid(sign)
      ensures error == if old(Error(position)).Some? then old(Error(position)) else old(Error(position + 1))
      ensures old(position) < position && (error.Some? ==> FailedIn(faults, old(position), position, error.value))
      ensures own == (if old(Error(position)).Some? then old(own) else old(own) + [e])
      ensures chain == (if old(Error(position)).Some? then old(chain) else old(chain) + [e])
      ensures intents == if error.Some? then old(intents) else old(intents) + [IdentityOf(e)]
      ensures torn <==> error.Some? && old(Error(position)).None?
    {
      error := Statement();
      if error.Some? {
        assert FaultAt(faults, old(position)) == error;
        return;
      }
      StillIn(own, chain, chain + [e]);
      chain := chain + [e];
      own := own + [e];
      error := Statement();
      if error.Some? {
        assert FaultAt(faults, old(position) + 1) == error;
        torn := true;
        return;
      }
      intents := intents + [IdentityOf(e)];
    }

    /** What `compare_append` does once it holds the lock. */
    method UnderLock(e: Envelope, expected: Option<Head>, ghost sign: Signer,
                     ghost seen: Option<Envelope>) returns (r: Result<bool, string>)
      requires Valid(sign) && WellBehaved(sign, cap, others) && locked && Usable() && e.sequence <= cap
      requires Attested(sign, seen, e) && expected == HeadOfTail(seen) && (seen.Some? ==> seen.value in chain)
      modifies this`chain, this`position, this`intents, this`own, this`torn
      ensures Valid(sign) && old(position) < position && old(chain) <= chain
      ensures r == Ok(true) ==> Added(e, old(own), old(intents), old(chain)) && !torn && Numbered(seen, e)
      ensures r == Ok(false) ==> HasEvent(chain, e.event.id) || HeadOfTail(TailBefore(chain, |chain|)) != expected
      ensures r == Ok(false) ==> Untouched(old(own), old(intents), old(chain), old(torn))
      ensures r.Err? ==> Untouched(old(own), old(intents), old(chain), old(torn)) || Tore(e, old(own), old(intents), old(chain), old(torn))
      ensures r.Err? ==> CompareRefused(e, seen, r.error) || Failed(old(torn), old(position), r.error)
    {
      r := MayAppend(e, expected, sign, seen);
      if r != Ok(true) {
        return;
      }
      ghost var middle := position;
      var error := Insert(e, sign);
      if error.Some? {
        assert FailedIn(faults, old(position), position, error.value);
        r := Err(error.value);
      }
    }

    /** Appends event and intent exactly when the chain, seen under its lock, still ends
        in the expected head and does not hold the event. */
    method CompareAppend(e: Envelope, expected: Option<Head>, ghost sign: Signer,
                         ghost seen: Option<Envelope>) returns (r: Result<bool, string>)
      requires Valid(sign) && WellBehaved(sign, cap, others)
      requires Attested(sign, seen, e) && expected == HeadOfTail(seen) && (seen.Some? ==> seen.value in chain)
      modifies this`chain, this`position, this`intents, this`own, this`locked, this`torn
      ensures Valid(sign) && old(chain) <= chain && old(position) <= position
      ensures r == Ok(true) ==> |chain| > 0 && chain[|chain| - 1] == e && old(chain) <= chain[..|chain| - 1]
      ensures r == Ok(true) ==> own == old(own) + [e] && intents == old(intents) + [IdentityOf(e)] && Usable() && locked && !torn
      ensures r == Ok(true) ==> Numbered(seen, e)
      ensures r == Ok(false) ==> HasEvent(chain, e.event.id) || HeadOfTail(TailBefore(chain, |chain|)) != expected
      ensures r == Ok(false) ==> own == old(own) && intents == old(intents) && torn == old(torn)
      ensures r.Err? ==> intents == old(intents) &&
                         if own == old(own) then torn == old(torn) else !old(torn) && torn && own == old(own) + [e]
      ensures r.Err? ==> CompareRefused(e, seen, r.error) || (Usable() && Failed(old(torn), old(position), r.error))
      ensures !Usable() || e.sequence > cap ==> r.Err?
    {
      if !Usable() {
        return Err("AUDIT_DURABILITY_REQUIRED");
      }
      if e.sequence > cap {
        return Err("AUDIT_LIMIT_EXCEEDED");
      }
      var error := Snapshot(sign);
      if error.Some? {
        assert !torn ==> FaultAt(faults, old(position)) == error;
        return Err(error.value);
      }
      locked := true;
      ghost var seenChain := chain;
      r := UnderLock(e, expected, sign, seen);
      PrefixThrough(old(chain), seenChain, chain);
    }

    ghost predicate Added(e: Envelope, own0: seq<Envelope>, intents0: seq<Identity>, chain0: seq<Envelope>)
      reads this
    {
      own == own0 + [e] && intents == intents0 + [IdentityOf(e)] && chain == chain0 + [e]
    }

    ghost predicate Untouched(own0: seq<Envelope>, intents0: seq<Identity>, chain0: seq<Envelope>, torn0: bool)
      reads this
    {
      own == own0 && intents == intents0 && chain == chain0 && torn == torn0
    }

    /** The event is in, its intent is not. */
    ghost predicate Tore(e: Envelope, own0: seq<Envelope>, intents0: seq<Identity>, chain0: seq<Envelope>, torn0: bool)
      reads this
    {
      own == own0 + [e] && intents == intents0 && chain == chain0 + [e] && !torn0 && torn
    }

    /** A statement since the given one failed with this error, or the transaction was torn. */
    ghost predicate Failed(torn0: bool, from: nat, error: string)
      reads this
    {
      FailedIn(faults, from, position, error) || (torn0 && error == OPERATION_FAILED)
    }

    /** Why `compare_append` refuses an envelope by itself. */
    ghost predicate CompareRefused(e: Envelope, seen: Option<Envelope>, error: string)
      reads this
    {
      match error
      case "AUDIT_DURABILITY_REQUIRED" => !Usable()
      case "AUDIT_LIMIT_EXCEEDED" => e.sequence > cap
      case "AUDIT_CHAIN_INVALID" => TailBefore(chain, |chain|) == seen && !Numbered(seen, e)
      case _ => false
    }
  }

  lemma {:induction false} SameTail(sign: Signer, cap: nat, s: seq<Envelope>, seen: Option<Envelope>,
                                    tail: Option<Envelope>)
    requires IsChain(sign, cap, s) && (seen.Some? ==> seen.value in s)
    requires tail == TailBefore(s, |s|) && HeadOfTail(tail) == HeadOfTail(seen)
    ensures tail == seen
  {
    if seen.Some? {
      var i :| 0 <= i < |s| && s[i] == seen.value;
      ChainIsLinked(sign, cap, s, i);
      ChainIsLinked(sign, cap, s, |s| - 1);
    }
  }

  /** The next candidate after a tail. */
  function Candidate(sign: Signer, b: Binding, key: string, event: Event, tail: Option<Envelope>): Envelope
  {
    var e := Envelope(b.chain, if tail.Some? then tail.value.sequence + 1 else 1, key, event,
                      if tail.Some? then tail.value.current else Zeros(), Zeros());
    e.(current := sign(e))
  }

  /** Why an append is refused, seen on the chain at the end. */
  ghost predicate Refused(b: Binding, event: Event, chain: seq<Envelope>, cap: nat, usable: bool, error: string)
  {
    match error
    case "AUDIT_CHAIN_INVALID" => event.run != b.run || event.policy != b.policy || exists e :: e in chain && !BoundTo(b, e)
    case "AUDIT_EVENT_INVALID" =>
      || (exists e :: e in chain && e.event.id == event.id && e.event != event)
      || (|chain| > 0 && !EventMayFollow(chain[|chain| - 1].event, event))
    case "AUDIT_LIMIT_EXCEEDED" => |chain| >= cap
    case "AUDIT_DURABILITY_REQUIRED" => !usable
    case _ => false
  }

  /** What an append has done when it answers: never more than one row, none if the event was
      there, and a row without intent only in a transaction that is torn. */
  ghost predicate Answered(sign: Signer, b: Binding, key: string, event: Event, own0: seq<Envelope>, torn0: bool, store: ChainStore,
                           r: Result<Envelope, string>)
    reads store
  {
    match r
    case Ok(e) =>
      && e in store.chain && e.event == event && BoundTo(b, e) && Signed(sign, e) && !store.torn
      && (store.own == own0 || (store.own == own0 + [e] && e.key == key))
    case Err(_) =>
      if store.own == own0 then store.torn == torn0
      else
        && !torn0 && store.torn && |store.own| == |own0| + 1 && own0 <= store.own
        && store.own[|own0|].event == event && store.own[|own0|].key == key
  }

  /** An await of the store or of the signer failed. */
  ghost predicate AwaitFailed(store: ChainStore, torn0: bool, from: nat, signing: Faults, requests: nat, error: string)
    reads store
  {
    store.Failed(torn0, from, error) || FailedIn(signing, 0, requests, error)
  }

  /** An envelope of the chain under the key of the chain. */
  method Authenticate(sign: Signer, b: Binding, e: Envelope, signing: Faults, requests0: nat)
    returns (error: Option<string>, requests: nat)
    ensures requests0 <= requests
    ensures error.None? ==> BoundTo(b, e) && Signed(sign, e)
    ensures error.Some? ==>
              FailedIn(signing, 0, requests, error.value) || (error.value == "AUDIT_CHAIN_INVALID" && !(BoundTo(b, e) && Signed(sign, e)))
  {
    requests := requests0;
    if !BoundTo(b, e) {
      return Some("AUDIT_CHAIN_INVALID"), requests;
    }
    error := FaultAt(signing, requests);
    requests := requests + 1;
    if error.Some? {
      assert FaultAt(signing, requests0) == error;
      return;
    }
    if !Signed(sign, e) {
      error := Some("AUDIT_CHAIN_INVALID");
    }
  }

  /** The event is known already: it must be this very event. */
  method Repeated(store: ChainStore, sign: Signer, b: Binding, event: Event, previous: Envelope, signing: Faults,
                  requests0: nat)
    returns (r: Result<Envelope, string>, requests: nat)
    requires store.Valid(sign) && previous in store.chain && previous.event.id == event.id
    ensures requests0 <= requests
    ensures r.Ok? ==> r.value == previous && previous.event == event && BoundTo(b, previous) && Signed(sign, previous)
    ensures r.Err? ==>
              FailedIn(signing, 0, requests, r.error) || Refused(b, event, store.chain, store.cap, store.Usable(), r.error)
  {
    SignedInChain(sign, store.cap, store.chain, previous);
    var error;
    error, requests := Authenticate(sign, b, previous, signing, requests0);
    if error.Some? {
      return Err(error.value), requests;
    }
    r := if previous.event == event then Ok(previous) else Err("AUDIT_EVENT_INVALID");
  }

  /** Whether the event may follow the last one, and the envelope for it. */
  method Continue(store: ChainStore, sign: Signer, b: Binding, key: string, event: Event, tail: Option<Envelope>,
                  signing: Faults, requests0: nat)
    returns (r: Result<Envelope, string>, requests: nat)
    requires store.Valid(sign) && tail == TailBefore(store.chain, |store.chain|) && b.run == event.run && b.policy == event.policy
    ensures requests0 <= requests
    ensures r.Ok? ==> r.value.event == event && r.value.key == key && BoundTo(b, r.value) && Attested(sign, tail, r.value) && Numbered(tail, r.value)
    ensures r.Ok? ==> r.value.sequence == |store.chain| + 1 && (|store.chain| > 0 ==> |store.chain| < store.cap)
    ensures r.Err? ==>
              FailedIn(signing, 0, requests, r.error) || Refused(b, event, store.chain, store.cap, store.Usable(), r.error)
  {
    requests := requests0;
    if tail.Some? {
      SignedInChain(sign, store.cap, store.chain, tail.value);
      ChainIsLinked(sign, store.cap, store.chain, |store.chain| - 1);
      var error;
      error, requests := Authenticate(sign, b, tail.value, signing, requests);
      if error.Some? {
        return Err(error.value), requests;
      }
      if tail.value.sequence >= store.cap {
        return Err("AUDIT_LIMIT_EXCEEDED"), requests;
      }
      if !EventMayFollow(tail.value.event, event) {
        return Err("AUDIT_EVENT_INVALID"), requests;
      }
    }
    var unsigned := FaultAt(signing, requests);
    requests := requests + 1;
    if unsigned.Some? {
      assert FaultAt(signing, requests - 1) == unsigned;
      return Err(unsigned.value), requests;
    }
    r := Ok(Candidate(sign, b, key, event, tail));
  }

  lemma {:induction false} StatementFailed(store: ChainStore, torn0: bool, from: nat, k: nat, error: string)
    requires from <= k < store.position
    requires if torn0 then error == OPERATION_FAILED else FaultAt(store.faults, k) == Some(error)
    ensures store.Failed(torn0, from, error)
  {
  }

  lemma {:induction false} FailedEarlier(store: ChainStore, torn0: bool, from: nat, later: nat, error: string)
    requires from <= later && store.Failed(torn0, later, error)
    ensures store.Failed(torn0, from, error)
  {
  }

  lemma {:induction false} EventStays(before: seq<Envelope>, after: seq<Envelope>, id: string)
    requires before <= after
    ensures HasEvent(before, id) ==> HasEvent(after, id)
  {
    if !HasEvent(after, id) {
      NoEventBefore(before, after, id);
    }
  }

  /** One round of the append; `None` is a lost race. */
  method AppendOnce(store: ChainStore, sign: Signer, b: Binding, key: string, event: Event, signing: Faults, requests0: nat)
    returns (r: Option<Result<Envelope, string>>, requests: nat)
    requires store.Valid(sign) && WellBehaved(sign, store.cap, store.others)
    requires b.run == event.run && b.policy == event.policy
    modifies store`chain, store`position, store`intents, store`own, store`locked, store`torn
    ensures store.Valid(sign) && old(store.chain) <= store.chain && old(store.position) <= store.position && requests0 <= requests
    ensures r.None? ==> store.own == old(store.own) && store.torn == old(store.torn)
    ensures r.Some? ==> Answered(sign, b, key, event, old(store.own), old(store.torn), store, r.value)
    ensures HasEvent(old(store.chain), event.id) ==> store.own == old(store.own)
    ensures r.Some? && r.value.Err? ==>
              || AwaitFailed(store, old(store.torn), old(store.position), signing, requests, r.value.error)
              || Refused(b, event, store.chain, store.cap, store.Usable(), r.value.error)
  {
    requests := requests0;
    var previous := store.Find(event.id, sign);
    if previous.Err? {
      if store.Usable() {
        StatementFailed(store, store.torn, old(store.position), old(store.position), previous.error);
      }
      return Some(Err(previous.error)), requests;
    }
    if previous.value.Some? {
      var repeated;
      repeated, requests := Repeated(store, sign, b, event, previous.value.value, signing, requests);
      return Some(repeated), requests;
    }
    NoEventBefore(old(store.chain), store.chain, event.id);
    ghost var middle := store.position;
    var tail := store.Tail(sign);
    if tail.Err? {
      if store.Usable() {
        StatementFailed(store, store.torn, old(store.position), middle, tail.error);
      }
      return Some(Err(tail.error)), requests;
    }
    var candidate;
    candidate, requests := Continue(store, sign, b, key, event, tail.value, signing, requests);
    if candidate.Err? {
      return Some(candidate), requests;
    }
    var swapped := store.CompareAppend(candidate.value, HeadOfTail(tail.value), sign, tail.value);
    if swapped.Err? {
      return Some(Err(swapped.error)), requests;
    }
    r := if swapped.value then Some(candidate) else None;
  }

  /** Appends an event once: a repeated call with the same event finds the first one, and
      another body under a known event id is refused. Ends after at most 16 lost races. */
  method Append(store: ChainStore, sign: Signer, b: Binding, key: string, event: Event, signing: Faults)
    returns (r: Result<Envelope, string>, ghost conflicts: nat, requests: nat)
    requires store.Valid(sign) && WellBehaved(sign, store.cap, store.others)
    modifies store`chain, store`position, store`intents, store`own, store`locked, store`torn
    ensures store.Valid(sign) && conflicts <= 16
    ensures Answered(sign, b, key, event, old(store.own), old(store.torn), store, r)
    ensures HasEvent(old(store.chain), event.id) ==> store.own == old(store.own)
    ensures r.Err? ==>
              || (r.error == "AUDIT_OPERATION_FAILED" && conflicts == 16)
              || AwaitFailed(store, old(store.torn), old(store.position), signing, requests, r.error)
              || Refused(b, event, store.chain, store.cap, store.Usable(), r.error)
  {
    conflicts, requests := 0, 0;
    if event.run != b.run || event.policy != b.policy {
      return Err("AUDIT_CHAIN_INVALID"), conflicts, requests;
    }
    for attempt := 0 to RETRIES
      invariant store.Valid(sign) && store.own == old(store.own) && store.torn == old(store.torn)
      invariant old(store.chain) <= store.chain && old(store.position) <= store.position
      invariant conflicts == attempt
    {
      ghost var chain, position := store.chain, store.position;
      var answer;
      answer, requests := AppendOnce(store, sign, b, key, event, signing, requests);
      EventStays(old(store.chain), chain, event.id);
      if answer.Some? {
        if answer.value.Err? && store.Failed(old(store.torn), position, answer.value.error) {
          FailedEarlier(store, old(store.torn), old(store.position), position, answer.value.error);
        }
        return answer.value, conflicts, requests;
      }
      conflicts := conflicts + 1;
    }
    r := Err(OPERATION_FAILED);
  }

  lemma {:induction false} SignedInChain(sign: Signer, cap: nat, s: seq<Envelope>, e: Envelope)
    requires IsChain(sign, cap, s) && e in s
    ensures Signed(sign, e)
  {
    var i :| 0 <= i < |s| && s[i] == e;
    ChainIsLinked(sign, cap, s, i);
  }

  lemma {:induction false} NoEventBefore(before: seq<Envelope>, after: seq<Envelope>, id: string)
    requires before <= after && !HasEvent(after, id)
    ensures !HasEvent(before, id)
  {
    forall i | 0 <= i < |before|
      ensures before[i].event.id != id
    {
      assert after[i].event.id != id;
    }
  }
}
