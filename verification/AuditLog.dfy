/** Audit envelopes, the rows that hold them, and what makes the rows of a chain intact. */
module AuditLog {
  import opened Wrappers
  import opened Collections

  /** `at` is the time of occurrence. */
  datatype Event = Event(id: string, run: string, policy: string, target: Option<string>, at: int)

  datatype Envelope = Envelope(chain: string, sequence: nat, key: string, event: Event, previous: string, current: string)

  datatype Head = Head(chain: string, sequence: nat, digest: string)

  /** The signature covers everything but the hash that holds it. */
  type Signer = Envelope -> string

  function Zeros(): string
  {
    seq(64, _ => '0')
  }

  function HeadOf(e: Envelope): Head
  {
    Head(e.chain, e.sequence, e.current)
  }

  function HeadOfTail(tail: Option<Envelope>): Option<Head>
  {
    if tail.Some? then Some(HeadOf(tail.value)) else None
  }

  predicate Signed(sign: Signer, e: Envelope)
  {
    e.current == sign(e.(current := Zeros()))
  }

  predicate SameBinding(a: Envelope, b: Envelope)
  {
    a.chain == b.chain && a.event.run == b.event.run && a.event.policy == b.event.policy
  }

  /** The event is not older than the one before it and keeps its target. */
  predicate EventMayFollow(before: Event, after: Event)
  {
    before.at <= after.at && (before.target.Some? ==> before.target == after.target)
  }

  predicate Numbered(tail: Option<Envelope>, e: Envelope)
  {
    && e.sequence == (if tail.Some? then tail.value.sequence + 1 else 1)
    && e.previous == (if tail.Some? then tail.value.current else Zeros())
  }

  /** What the signing side answers for; the store does not check signatures. */
  predicate Attested(sign: Signer, tail: Option<Envelope>, e: Envelope)
  {
    && Signed(sign, e)
    && (tail.Some? ==> SameBinding(tail.value, e) && EventMayFollow(tail.value.event, e.event))
  }

  /** `e` continues a chain that ends in `tail`. */
  predicate MayFollow(sign: Signer, tail: Option<Envelope>, e: Envelope)
  {
    Numbered(tail, e) && Attested(sign, tail, e)
  }

  function TailBefore(s: seq<Envelope>, i: nat): Option<Envelope>
    requires i <= |s|
  {
    if i == 0 then None else Some(s[i - 1])
  }

  ghost predicate FollowsAt(sign: Signer, s: seq<Envelope>, i: nat)
    requires i < |s|
  {
    MayFollow(sign, TailBefore(s, i), s[i])
  }

  ghost predicate DistinctEvents(s: seq<Envelope>)
  {
    forall i, j :: 0 <= i < j < |s| ==> s[i].event.id != s[j].event.id
  }

  /** Signed links from the first envelope to the last, no event twice, at most `cap`. */
  ghost predicate IsChain(sign: Signer, cap: nat, s: seq<Envelope>)
  {
    && |s| <= cap
    && (forall i :: 0 <= i < |s| ==> FollowsAt(sign, s, i))
    && DistinctEvents(s)
  }

  /** Stated outright: sequences 1..n, each hash linked to the one before, one binding. */
  lemma {:induction false} ChainIsLinked(sign: Signer, cap: nat, s: seq<Envelope>, i: nat)
    requires IsChain(sign, cap, s) && i < |s|
    ensures s[i].sequence == i + 1 <= cap
    ensures s[i].previous == if i == 0 then Zeros() else s[i - 1].current
    ensures SameBinding(s[0], s[i]) && Signed(sign, s[i])
    ensures forall j :: i < j < |s| ==> s[j].event.id != s[i].event.id
  {
    assert FollowsAt(sign, s, i);
    if i > 0 {
      ChainIsLinked(sign, cap, s, i - 1);
    }
  }

  /** Along a chain times never go back, and a target once named stays. */
  lemma {:induction false} ChainKeepsTimeAndTarget(sign: Signer, cap: nat, s: seq<Envelope>, i: nat, j: nat)
    requires IsChain(sign, cap, s) && i < j < |s|
    ensures s[i].event.at <= s[j].event.at
    ensures s[i].event.target.Some? ==> s[j].event.target == s[i].event.target
  {
    assert FollowsAt(sign, s, j);
    if i < j - 1 {
      ChainKeepsTimeAndTarget(sign, cap, s, i, j - 1);
    }
  }

  /** One envelope of a chain, stated outright. */
  ghost predicate LinkedOutright(sign: Signer, s: seq<Envelope>, i: nat)
    requires i < |s|
  {
    && s[i].sequence == i + 1
    && (i == 0 ==> |s[i].previous| == 64 && forall k :: 0 <= k < 64 ==> s[i].previous[k] == '0')
    && (i > 0 ==> s[i].previous == s[i - 1].current)
    && s[i].current == sign(s[i].(current := Zeros()))
    && s[i].chain == s[0].chain && s[i].event.run == s[0].event.run && s[i].event.policy == s[0].event.policy
    && (i > 0 ==> s[i - 1].event.at <= s[i].event.at)
    && (i > 0 && s[i - 1].event.target.Some? ==> s[i].event.target == s[i - 1].event.target)
  }

  lemma {:induction false} SixtyFourZeros(s: string)
    ensures s == Zeros() <==> |s| == 64 && forall k :: 0 <= k < 64 ==> s[k] == '0'
  {
    if |s| == 64 && forall k :: 0 <= k < 64 ==> s[k] == '0' {
      assert forall k :: 0 <= k < 64 ==> s[k] == Zeros()[k];
    }
  }

  /** The links of a chain one by one are the chain stated outright. */
  lemma {:induction false} ChainStatedOutright(sign: Signer, cap: nat, s: seq<Envelope>)
    ensures IsChain(sign, cap, s) <==>
            && |s| <= cap && (forall i :: 0 <= i < |s| ==> LinkedOutright(sign, s, i))
            && forall i, j :: 0 <= i < j < |s| ==> s[i].event.id != s[j].event.id
  {
    if IsChain(sign, cap, s) {
      forall i | 0 <= i < |s|
        ensures LinkedOutright(sign, s, i)
      {
        ChainIsLinked(sign, cap, s, i);
        SixtyFourZeros(s[i].previous);
        assert FollowsAt(sign, s, i);
      }
    }
    if |s| <= cap && forall i :: 0 <= i < |s| ==> LinkedOutright(sign, s, i) {
      forall i | 0 <= i < |s|
        ensures FollowsAt(sign, s, i)
      {
        SixtyFourZeros(s[i].previous);
        assert LinkedOutright(sign, s, i);
        if i > 0 {
          assert LinkedOutright(sign, s, i - 1);
        }
      }
    }
  }

  lemma {:induction false} ChainGrows(sign: Signer, cap: nat, s: seq<Envelope>, e: Envelope)
    requires IsChain(sign, cap, s) && MayFollow(sign, TailBefore(s, |s|), e) && e.sequence <= cap
    requires forall i :: 0 <= i < |s| ==> s[i].event.id != e.event.id
    ensures IsChain(sign, cap, s + [e])
  {
    var more := s + [e];
    forall i | 0 <= i < |more|
      ensures FollowsAt(sign, more, i)
    {
      if i < |s| {
        assert FollowsAt(sign, s, i);
      }
    }
    if |s| > 0 {
      ChainIsLinked(sign, cap, s, |s| - 1);
    }
  }

  lemma {:induction false} PrefixIsChain(sign: Signer, cap: nat, s: seq<Envelope>, n: nat)
    requires IsChain(sign, cap, s) && n <= |s|
    ensures IsChain(sign, cap, s[..n])
  {
    forall i | 0 <= i < n
      ensures FollowsAt(sign, s[..n], i)
    {
      assert FollowsAt(sign, s, i);
    }
  }

  // ---------------------------------------------------------------------------
  // Rows
  // ---------------------------------------------------------------------------

  /** A row of the event table, with the transaction that wrote it and the head it
      expected to extend. */
  datatype Row = Row(envelope: Envelope, expected: Option<Head>, author: nat)

  /** The rows of one chain, oldest first. */
  function ChainOf(rows: seq<Row>, chain: string): seq<Envelope>
  {
    if |rows| == 0 then []
    else
      var front, last := ChainOf(rows[..|rows| - 1], chain), rows[|rows| - 1].envelope;
      if last.chain == chain then front + [last] else front
  }

  lemma {:induction false} ChainOfAppend(a: seq<Row>, b: seq<Row>, chain: string)
    ensures ChainOf(a + b, chain) == ChainOf(a, chain) + ChainOf(b, chain)
    decreases |b|
  {
    if |b| == 0 {
      assert a + b == a;
    } else {
      var front := b[..|b| - 1];
      assert (a + b)[..|a + b| - 1] == a + front;
      ChainOfAppend(a, front, chain);
    }
  }

  lemma {:induction false} NoRowsNoChain(rows: seq<Row>, chain: string)
    requires forall r :: r in rows ==> r.envelope.chain != chain
    ensures ChainOf(rows, chain) == []
    decreases |rows|
  {
    if |rows| > 0 {
      NoRowsNoChain(rows[..|rows| - 1], chain);
    }
  }

  lemma {:induction false} ChainMembers(rows: seq<Row>, chain: string, e: Envelope)
    ensures e in ChainOf(rows, chain) <==> e.chain == chain && exists r :: r in rows && r.envelope == e
    decreases |rows|
  {
    if |rows| > 0 {
      var front, last := rows[..|rows| - 1], rows[|rows| - 1];
      ChainMembers(front, chain, e);
      assert rows == front + [last];
      if e in ChainOf(rows, chain) && e !in ChainOf(front, chain) {
        assert last in rows && last.envelope == e;
      }
    }
  }

  /** ORDER BY sequence DESC LIMIT 1 over the rows of a chain. */
  function Highest(s: seq<Envelope>): Option<Envelope>
  {
    if |s| == 0 then None
    else
      var best, last := Highest(s[..|s| - 1]), s[|s| - 1];
      if best.Some? && best.value.sequence >= last.sequence then best else Some(last)
  }

  lemma {:induction false} HighestIsLast(sign: Signer, cap: nat, s: seq<Envelope>)
    requires IsChain(sign, cap, s)
    ensures Highest(s) == TailBefore(s, |s|)
    decreases |s|
  {
    if |s| > 1 {
      PrefixIsChain(sign, cap, s, |s| - 1);
      HighestIsLast(sign, cap, s[..|s| - 1]);
      ChainIsLinked(sign, cap, s, |s| - 1);
      ChainIsLinked(sign, cap, s, |s| - 2);
    }
  }

  predicate HasEvent(s: seq<Envelope>, id: string)
  {
    exists i :: 0 <= i < |s| && s[i].event.id == id
  }

  /** Primary key of the event table and of the delivery intents. */
  datatype Identity = Identity(chain: string, sequence: nat, event: string)

  function IdentityOf(e: Envelope): Identity
  {
    Identity(e.chain, e.sequence, e.event.id)
  }

  function Identities(rows: seq<Row>): seq<Identity>
  {
    seq(|rows|, i requires 0 <= i < |rows| => IdentityOf(rows[i].envelope))
  }

  // ---------------------------------------------------------------------------
  // The verifier
  // ---------------------------------------------------------------------------

  datatype Binding = Binding(chain: string, run: string, policy: string)

  predicate BoundTo(b: Binding, e: Envelope)
  {
    e.chain == b.chain && e.event.run == b.run && e.event.policy == b.policy
  }

  /** A non-empty intact chain of this binding, ending in the trusted head if one is given. */
  ghost predicate Verifiable(sign: Signer, cap: nat, b: Binding, records: seq<Envelope>, expected: Option<Head>)
  {
    && IsChain(sign, cap, records) && |records| > 0
    && (forall i :: 0 <= i < |records| ==> BoundTo(b, records[i]))
    && (expected.Some? ==> HeadOf(records[|records| - 1]) == expected.value)
  }

  /** Every prefix of an intact chain verifies against the head it ends in. */
  lemma {:induction false} PrefixVerifies(sign: Signer, cap: nat, s: seq<Envelope>, n: nat)
    requires IsChain(sign, cap, s) && 0 < n <= |s|
    ensures Verifiable(sign, cap, Binding(s[0].chain, s[0].event.run, s[0].event.policy), s[..n], Some(HeadOf(s[n - 1])))
  {
    PrefixIsChain(sign, cap, s, n);
    forall i | 0 <= i < n
      ensures BoundTo(Binding(s[0].chain, s[0].event.run, s[0].event.policy), s[..n][i])
    {
      ChainIsLinked(sign, cap, s, i);
    }
  }

  function EventIds(s: seq<Envelope>): set<string>
  {
    set e | e in s :: e.event.id
  }

  /** What the verifier knows after the records `s`. */
  ghost predicate AllBound(b: Binding, s: seq<Envelope>)
  {
    forall i :: 0 <= i < |s| ==> BoundTo(b, s[i])
  }

  lemma {:induction false} AllBoundNext(b: Binding, s: seq<Envelope>, record: Envelope)
    requires AllBound(b, s) && BoundTo(b, record)
    ensures AllBound(b, s + [record])
  {
  }

  ghost predicate Scanned(sign: Signer, cap: nat, b: Binding, s: seq<Envelope>, previous: Option<Envelope>,
                          seen: set<string>)
  {
    && IsChain(sign, cap, s)
    && AllBound(b, s)
    && previous == TailBefore(s, |s|)
    && seen == EventIds(s) && |seen| == |s|
  }

  predicate Continues(sign: Signer, b: Binding, previous: Option<Envelope>, seen: set<string>, record: Envelope)
  {
    && BoundTo(b, record) && Signed(sign, record) && Numbered(previous, record) && record.event.id !in seen
    && (previous.Some? ==> EventMayFollow(previous.value.event, record.event))
  }

  lemma {:induction false} UnseenIsNew(s: seq<Envelope>, seen: set<string>, record: Envelope)
    requires seen == EventIds(s) && record.event.id !in seen
    ensures forall i :: 0 <= i < |s| ==> s[i].event.id != record.event.id
  {
    forall i | 0 <= i < |s|
      ensures s[i].event.id in seen
    {
      assert s[i] in s;
    }
  }

  lemma {:induction false} ScanNext(sign: Signer, cap: nat, b: Binding, s: seq<Envelope>, previous: Option<Envelope>,
                                    seen: set<string>,
                                    record: Envelope)
    requires Scanned(sign, cap, b, s, previous, seen) && |seen| < cap && Continues(sign, b, previous, seen, record)
    ensures Scanned(sign, cap, b, s + [record], Some(record), seen + {record.event.id})
  {
    NumberOfContinuation(sign, cap, s, record);
    UnseenIsNew(s, seen, record);
    AllBoundNext(b, s, record);
    ChainGrows(sign, cap, s, record);
    EventIdsNext(s, record);
  }

  lemma {:induction false} EventIdsNext(s: seq<Envelope>, record: Envelope)
    ensures EventIds(s + [record]) == EventIds(s) + {record.event.id}
  {
    forall id | id in EventIds(s) + {record.event.id}
      ensures id in EventIds(s + [record])
    {
      if id in EventIds(s) {
        var e :| e in s && e.event.id == id;
        assert e in s + [record];
      } else {
        assert record in s + [record];
      }
    }
  }

  lemma {:induction false} NumberOfContinuation(sign: Signer, cap: nat, s: seq<Envelope>, e: Envelope)
    requires IsChain(sign, cap, s) && Numbered(TailBefore(s, |s|), e)
    ensures e.sequence == |s| + 1
  {
    if |s| > 0 {
      ChainIsLinked(sign, cap, s, |s| - 1);
    }
  }

  /** A record that does not continue its predecessors spoils every longer sequence. */
  lemma {:induction false} ScanStops(sign: Signer, cap: nat, b: Binding, records: seq<Envelope>, n: nat,
                                     previous: Option<Envelope>, seen: set<string>)
    requires n < |records| && Scanned(sign, cap, b, records[..n], previous, seen)
    requires IsChain(sign, cap, records) && BoundTo(b, records[n])
    ensures |seen| < cap && Continues(sign, b, previous, seen, records[n])
  {
    assert FollowsAt(sign, records, n);
    assert TailBefore(records, n) == TailBefore(records[..n], n);
    forall e | e in records[..n]
      ensures e.event.id != records[n].event.id
    {
      var k :| 0 <= k < n && records[k] == e;
      assert records[k].event.id != records[n].event.id;
    }
  }

  /** The first `n` records are an intact chain of this binding. */
  ghost predicate GoodUpTo(sign: Signer, cap: nat, b: Binding, records: seq<Envelope>, n: nat)
    requires n <= |records|
  {
    IsChain(sign, cap, records[..n]) && forall i :: 0 <= i < n ==> BoundTo(b, records[i])
  }

  lemma {:induction false} GoodGoesOn(sign: Signer, cap: nat, b: Binding, records: seq<Envelope>, n: nat, good: nat,
                                      previous: Option<Envelope>, seen: set<string>)
    requires n < good <= |records| && GoodUpTo(sign, cap, b, records, good)
    requires Scanned(sign, cap, b, records[..n], previous, seen)
    ensures |seen| < cap && Continues(sign, b, previous, seen, records[n])
  {
    assert records[..good][..n] == records[..n] && records[..good][n] == records[n];
    ScanStops(sign, cap, b, records[..good], n, previous, seen);
  }

  /** One pass over the records with the previous one and the events seen. */
  method Verify(sign: Signer, cap: nat, b: Binding, records: seq<Envelope>,
                expected: Option<Head>) returns (r: Result<Head, string>)
    ensures r.Ok? <==> Verifiable(sign, cap, b, records, expected)
    ensures r.Ok? ==> r.value == HeadOf(records[|records| - 1])
    ensures r == Err("AUDIT_CHAIN_EMPTY") <==> |records| == 0
    ensures r == Err("AUDIT_LIMIT_EXCEEDED") <==> |records| > cap && GoodUpTo(sign, cap, b, records, cap)
    ensures r.Err? ==> r.error in {"AUDIT_CHAIN_EMPTY", "AUDIT_LIMIT_EXCEEDED", "AUDIT_CHAIN_INVALID"}
  {
    var previous: Option<Envelope> := None;
    var seen: set<string> := {};
    for i := 0 to |records|
      invariant Scanned(sign, cap, b, records[..i], previous, seen)
    {
      var record := records[i];
      if IsChain(sign, cap, records) && BoundTo(b, record) {
        ScanStops(sign, cap, b, records, i, previous, seen);
      }
      if i < cap < |records| && GoodUpTo(sign, cap, b, records, cap) {
        GoodGoesOn(sign, cap, b, records, i, cap, previous, seen);
      }
      if |seen| >= cap {
        return Err("AUDIT_LIMIT_EXCEEDED");
      }
      if !Continues(sign, b, previous, seen, record) {
        return Err("AUDIT_CHAIN_INVALID");
      }
      ScanNext(sign, cap, b, records[..i], previous, seen, record);
      PrefixNext(records, i);
      seen := seen + {record.event.id};
      previous := Some(record);
    }
    assert records[..|records|] == records;
    if previous.None? {
      return Err("AUDIT_CHAIN_EMPTY");
    }
    if expected.Some? && HeadOf(previous.value) != expected.value {
      return Err("AUDIT_CHAIN_INVALID");
    }
    r := Ok(HeadOf(previous.value));
  }
}
