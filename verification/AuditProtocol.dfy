/** Any number of transactions that append to the audit chains of one schema, statement by
    statement, at READ COMMITTED with a transaction-scoped advisory lock per chain. */
module AuditProtocol {
  import opened Wrappers
  import opened AuditLog

  /** `lockKey` is the hash of a chain's lock name; different chains may share a key. */
  datatype Config = Config(sign: Signer, cap: nat, lockKey: string -> int)

  /** Where a transaction stands: between appends; with a signed candidate that continues
      the tail it has seen; inside `compare_append`; or failed and only good for rollback. */
  datatype Phase =
    | Idle
    | Ready(e: Envelope, seen: Option<Envelope>)
    | Locked(e: Envelope, seen: Option<Envelope>)
    | TailRead(e: Envelope, seen: Option<Envelope>, tail: Option<Envelope>)
    | Checked(e: Envelope, seen: Option<Envelope>)
    | EventInserted(e: Envelope)
    | Broken

  /** A transaction with its uncommitted rows. */
  datatype Tx = Tx(phase: Phase, rows: seq<Row>, intents: seq<Identity>)

  /** Committed rows in commit order, open transactions, and the advisory locks they hold. */
  datatype World = World(rows: seq<Row>, intents: seq<Identity>, txs: map<nat, Tx>, locks: map<int, nat>)

  const EMPTY := World([], [], map[], map[])

  datatype Action =
    | Begin
    | Prepare(e: Envelope)
    | Lock
    | ReadTail
    | ReadEvent
    | InsertEvent
    | InsertIntent
    | Commit
    | Rollback
    | Fail

  /** What a statement of the transaction sees of one chain. */
  function Seen(rows: seq<Row>, tx: Tx, chain: string): seq<Envelope>
  {
    ChainOf(rows + tx.rows, chain)
  }

  predicate Owns(cfg: Config, locks: map<int, nat>, t: nat, chain: string)
  {
    cfg.lockKey(chain) in locks && locks[cfg.lockKey(chain)] == t
  }

  predicate LockFree(cfg: Config, locks: map<int, nat>, t: nat, chain: string)
  {
    cfg.lockKey(chain) !in locks || Owns(cfg, locks, t, chain)
  }

  predicate Enabled(cfg: Config, w: World, t: nat, a: Action)
  {
    if a.Begin? then t !in w.txs
    else
      t in w.txs &&
      var tx := w.txs[t];
      match a
      case Prepare(e) => tx.phase.Idle? && MayFollow(cfg.sign, Highest(Seen(w.rows, tx, e.chain)), e)
      case Lock => tx.phase.Ready? && (tx.phase.e.sequence <= cfg.cap ==> LockFree(cfg, w.locks, t, tx.phase.e.chain))
      case ReadTail => tx.phase.Locked?
      case ReadEvent => tx.phase.TailRead?
      case InsertEvent => tx.phase.Checked?
      case InsertIntent => tx.phase.EventInserted?
      case Commit => tx.phase.Idle?
      case _ => true
  }

  function WithTx(w: World, t: nat, tx: Tx): World
  {
    w.(txs := w.txs[t := tx])
  }

  function WithoutTx(w: World, t: nat): World
  {
    w.(txs := w.txs - {t}, locks := map k | k in w.locks && w.locks[k] != t :: w.locks[k])
  }

  /** The comparison of `compare_append` after the tail has been read again. */
  function Decide(p: Phase, chain: seq<Envelope>): Phase
    requires p.TailRead?
  {
    if HeadOfTail(p.tail) != HeadOfTail(p.seen) || HasEvent(chain, p.e.event.id) then Idle
    else if !Numbered(p.tail, p.e) then Broken
    else Checked(p.e, p.seen)
  }

  predicate KeyTaken(rows: seq<Row>, e: Envelope)
  {
    exists r :: r in rows && r.envelope.chain == e.chain && r.envelope.sequence == e.sequence
  }

  function Apply(cfg: Config, w: World, t: nat, a: Action): (next: World)
    requires Enabled(cfg, w, t, a)
    ensures w.rows <= next.rows
  {
    if a.Begin? then WithTx(w, t, Tx(Idle, [], []))
    else
      var tx := w.txs[t];
      var p := tx.phase;
      match a
      case Prepare(e) => WithTx(w, t, tx.(phase := Ready(e, Highest(Seen(w.rows, tx, e.chain)))))
      case Lock =>
        if p.e.sequence > cfg.cap then WithTx(w, t, tx.(phase := Broken))
        else WithTx(w, t, tx.(phase := Locked(p.e, p.seen))).(locks := w.locks[cfg.lockKey(p.e.chain) := t])
      case ReadTail => WithTx(w, t, tx.(phase := TailRead(p.e, p.seen, Highest(Seen(w.rows, tx, p.e.chain)))))
      case ReadEvent => WithTx(w, t, tx.(phase := Decide(p, Seen(w.rows, tx, p.e.chain))))
      case InsertEvent =>
        if KeyTaken(w.rows + tx.rows, p.e) then WithTx(w, t, tx.(phase := Broken))
        else WithTx(w, t, tx.(phase := EventInserted(p.e), rows := tx.rows + [Row(p.e, HeadOfTail(p.seen), t)]))
      case InsertIntent => WithTx(w, t, tx.(phase := Idle, intents := tx.intents + [IdentityOf(p.e)]))
      case Commit => WithoutTx(w, t).(rows := w.rows + tx.rows, intents := w.intents + tx.intents)
      case Rollback => WithoutTx(w, t)
      case _ => WithTx(w, t, tx.(phase := Broken))
  }

  function RunFrom(cfg: Config, w: World, run: seq<(nat, Action)>): Option<World>
  {
    if |run| == 0 then Some(w)
    else
      var before := RunFrom(cfg, w, run[..|run| - 1]);
      var (t, a) := run[|run| - 1];
      if before.Some? && Enabled(cfg, before.value, t, a) then Some(Apply(cfg, before.value, t, a)) else None
  }

  function RunOf(cfg: Config, run: seq<(nat, Action)>): Option<World>
  {
    RunFrom(cfg, EMPTY, run)
  }

  // ---------------------------------------------------------------------------
  // The invariant
  // ---------------------------------------------------------------------------

  ghost predicate AllChains(cfg: Config, rows: seq<Row>)
  {
    forall c :: IsChain(cfg.sign, cfg.cap, ChainOf(rows, c))
  }

  /** A row extends exactly the head it expected. */
  predicate ExtendsExpected(r: Row)
  {
    r.expected == if r.envelope.sequence <= 1 then None
                  else Some(Head(r.envelope.chain, r.envelope.sequence - 1, r.envelope.previous))
  }

  /** The candidate continues a tail that is still among the rows it sees. */
  ghost predicate Candidate(cfg: Config, rows: seq<Row>, tx: Tx, e: Envelope, seen: Option<Envelope>)
  {
    MayFollow(cfg.sign, seen, e) && (seen.Some? ==> seen.value in Seen(rows, tx, e.chain))
  }

  ghost predicate PhaseOk(cfg: Config, rows: seq<Row>, locks: map<int, nat>, t: nat, tx: Tx)
  {
    var p := tx.phase;
    && (p.Ready? || p.Locked? || p.TailRead? || p.Checked? ==> Candidate(cfg, rows, tx, p.e, p.seen))
    && (p.Locked? || p.TailRead? || p.Checked? || p.EventInserted? ==> Owns(cfg, locks, t, p.e.chain) && p.e.sequence <= cfg.cap)
    && (p.TailRead? ==> p.tail == Highest(Seen(rows, tx, p.e.chain)))
    && (p.Checked? ==> HeadOfTail(Highest(Seen(rows, tx, p.e.chain))) == HeadOfTail(p.seen)
                       && !HasEvent(Seen(rows, tx, p.e.chain), p.e.event.id))
  }

  ghost predicate IntentsOk(tx: Tx)
  {
    match tx.phase
    case Broken => true
    case EventInserted(e) => Identities(tx.rows) == tx.intents + [IdentityOf(e)]
    case _ => Identities(tx.rows) == tx.intents
  }

  ghost predicate RowsLocked(cfg: Config, locks: map<int, nat>, t: nat, tx: Tx)
  {
    forall r :: r in tx.rows ==> Owns(cfg, locks, t, r.envelope.chain)
  }

  ghost predicate AllExtend(rows: seq<Row>)
  {
    forall r :: r in rows ==> ExtendsExpected(r)
  }

  ghost predicate TxOk(cfg: Config, rows: seq<Row>, locks: map<int, nat>, t: nat, tx: Tx)
  {
    && AllChains(cfg, rows + tx.rows)
    && RowsLocked(cfg, locks, t, tx)
    && AllExtend(tx.rows)
    && PhaseOk(cfg, rows, locks, t, tx)
    && IntentsOk(tx)
  }

  ghost predicate Inv(cfg: Config, w: World)
  {
    && AllChains(cfg, w.rows)
    && AllExtend(w.rows)
    && Identities(w.rows) == w.intents
    && AllTxOk(cfg, w)
    && LocksHeld(w)
  }

  ghost predicate AllTxOk(cfg: Config, w: World)
  {
    forall t :: t in w.txs ==> TxOk(cfg, w.rows, w.locks, t, w.txs[t])
  }

  ghost predicate LocksHeld(w: World)
  {
    forall k :: k in w.locks ==> w.locks[k] in w.txs
  }

  // ---------------------------------------------------------------------------
  // Steps of one transaction
  // ---------------------------------------------------------------------------

  /** A tail with the head that was seen is the very envelope that was seen. */
  lemma {:induction false} SameHeadSameTail(cfg: Config, s: seq<Envelope>, seen: Option<Envelope>)
    requires IsChain(cfg.sign, cfg.cap, s) && (seen.Some? ==> seen.value in s)
    requires HeadOfTail(Highest(s)) == HeadOfTail(seen)
    ensures Highest(s) == seen == TailBefore(s, |s|)
  {
    HighestIsLast(cfg.sign, cfg.cap, s);
    if seen.Some? {
      var i :| 0 <= i < |s| && s[i] == seen.value;
      ChainIsLinked(cfg.sign, cfg.cap, s, i);
      ChainIsLinked(cfg.sign, cfg.cap, s, |s| - 1);
    }
  }

  lemma {:induction false} InsertKeepsChains(cfg: Config, rows: seq<Row>, r: Row, seen: Option<Envelope>)
    requires AllChains(cfg, rows) && MayFollow(cfg.sign, seen, r.envelope) && r.envelope.sequence <= cfg.cap
    requires seen.Some? ==> seen.value in ChainOf(rows, r.envelope.chain)
    requires HeadOfTail(Highest(ChainOf(rows, r.envelope.chain))) == HeadOfTail(seen)
    requires !HasEvent(ChainOf(rows, r.envelope.chain), r.envelope.event.id)
    ensures AllChains(cfg, rows + [r])
  {
    forall c
      ensures IsChain(cfg.sign, cfg.cap, ChainOf(rows + [r], c))
    {
      assert (rows + [r])[..|rows|] == rows;
      assert IsChain(cfg.sign, cfg.cap, ChainOf(rows, c));
      if c == r.envelope.chain {
        SameHeadSameTail(cfg, ChainOf(rows, c), seen);
        ChainGrows(cfg.sign, cfg.cap, ChainOf(rows, c), r.envelope);
      }
    }
  }

  lemma {:induction false} IdentitiesNext(rows: seq<Row>, r: Row)
    ensures Identities(rows + [r]) == Identities(rows) + [IdentityOf(r.envelope)]
  {
  }

  lemma {:induction false} IdentitiesAppend(a: seq<Row>, b: seq<Row>)
    ensures Identities(a + b) == Identities(a) + Identities(b)
  {
  }

  lemma {:induction false} InsertedRowExtends(cfg: Config, e: Envelope, seen: Option<Envelope>, t: nat)
    requires MayFollow(cfg.sign, seen, e) && (seen.Some? ==> seen.value.sequence >= 1)
    ensures ExtendsExpected(Row(e, HeadOfTail(seen), t))
  {
  }

  lemma {:induction false} InsertEventKeepsTx(cfg: Config, rows: seq<Row>, locks: map<int, nat>, t: nat, tx: Tx)
    requires TxOk(cfg, rows, locks, t, tx) && tx.phase.Checked?
    ensures var r := Row(tx.phase.e, HeadOfTail(tx.phase.seen), t);
            TxOk(cfg, rows, locks, t, tx.(phase := EventInserted(tx.phase.e), rows := tx.rows + [r]))
  {
    var e, seen := tx.phase.e, tx.phase.seen;
    var r := Row(e, HeadOfTail(seen), t);
    InsertKeepsChains(cfg, rows + tx.rows, r, seen);
    assert rows + (tx.rows + [r]) == rows + tx.rows + [r];
    IdentitiesNext(tx.rows, r);
    if seen.Some? {
      var s := Seen(rows, tx, e.chain);
      var i :| 0 <= i < |s| && s[i] == seen.value;
      ChainIsLinked(cfg.sign, cfg.cap, s, i);
    }
    InsertedRowExtends(cfg, e, seen, t);
  }

  lemma {:induction false} HighestIsMember(s: seq<Envelope>)
    ensures |s| > 0 ==> Highest(s).Some? && Highest(s).value in s
    ensures |s| == 0 ==> Highest(s).None?
    decreases |s|
  {
    if |s| > 0 {
      HighestIsMember(s[..|s| - 1]);
    }
  }

  /** Every statement keeps the invariant of the transaction that runs it. */
  lemma {:induction false} StatementKeepsTx(cfg: Config, w: World, t: nat, a: Action)
    requires Enabled(cfg, w, t, a) && t in w.txs && TxOk(cfg, w.rows, w.locks, t, w.txs[t])
    requires !a.Commit? && !a.Rollback?
    ensures var w' := Apply(cfg, w, t, a); t in w'.txs && w'.rows == w.rows && TxOk(cfg, w'.rows, w'.locks, t, w'.txs[t])
  {
    var tx := w.txs[t];
    match a {
      case Prepare(e) =>
        HighestIsMember(Seen(w.rows, tx, e.chain));
      case Lock =>
        if tx.phase.e.sequence <= cfg.cap {
          assert RowsLocked(cfg, w.locks[cfg.lockKey(tx.phase.e.chain) := t], t, tx);
        }
      case InsertEvent =>
        if !KeyTaken(w.rows + tx.rows, tx.phase.e) {
          InsertEventKeepsTx(cfg, w.rows, w.locks, t, tx);
        }
      case _ =>
    }
  }

  // ---------------------------------------------------------------------------
  // The other transactions
  // ---------------------------------------------------------------------------

  ghost predicate KeepsLocks(cfg: Config, before: map<int, nat>, after: map<int, nat>, t: nat)
  {
    forall c :: Owns(cfg, before, t, c) ==> Owns(cfg, after, t, c)
  }

  lemma {:induction false} OthersKeepTheirs(cfg: Config, rows: seq<Row>, before: map<int, nat>, after: map<int, nat>,
                                            t: nat, tx: Tx)
    requires TxOk(cfg, rows, before, t, tx) && KeepsLocks(cfg, before, after, t)
    ensures TxOk(cfg, rows, after, t, tx)
  {
    PhaseKept(cfg, rows, before, after, t, tx);
    RowsKeptLocked(cfg, before, after, t, tx);
  }

  lemma {:induction false} PhaseKept(cfg: Config, rows: seq<Row>, before: map<int, nat>, after: map<int, nat>, t: nat, tx: Tx)
    requires PhaseOk(cfg, rows, before, t, tx) && KeepsLocks(cfg, before, after, t)
    ensures PhaseOk(cfg, rows, after, t, tx)
  {
  }

  lemma {:induction false} RowsKeptLocked(cfg: Config, before: map<int, nat>, after: map<int, nat>, t: nat, tx: Tx)
    requires RowsLocked(cfg, before, t, tx) && KeepsLocks(cfg, before, after, t)
    ensures RowsLocked(cfg, after, t, tx)
  {
  }

  /** Rows that a commit adds to chains this transaction has not locked. */
  lemma {:induction false} SeenAfterCommit(rows: seq<Row>, more: seq<Row>, tx: Tx, c: string)
    requires forall r :: r in more ==> r.envelope.chain != c
    ensures Seen(rows + more, tx, c) == Seen(rows, tx, c)
  {
    ChainOfAppend(rows + more, tx.rows, c);
    ChainOfAppend(rows, more, c);
    ChainOfAppend(rows, tx.rows, c);
    NoRowsNoChain(more, c);
  }

  lemma {:induction false} ForeignCommitKeepsChains(cfg: Config, rows: seq<Row>, locks: map<int, nat>, t: nat, tx: Tx,
                                                    u: nat, committed: Tx)
    requires t != u && TxOk(cfg, rows, locks, t, tx) && TxOk(cfg, rows, locks, u, committed)
    ensures AllChains(cfg, rows + committed.rows + tx.rows)
  {
    forall c
      ensures IsChain(cfg.sign, cfg.cap, ChainOf(rows + committed.rows + tx.rows, c))
    {
      if Owns(cfg, locks, t, c) {
        NoForeignRows(cfg, locks, t, u, committed, c);
        SeenAfterCommit(rows, committed.rows, tx, c);
        assert IsChain(cfg.sign, cfg.cap, Seen(rows, tx, c));
      } else {
        ChainOfAppend(rows + committed.rows, tx.rows, c);
        NoRowsNoChain(tx.rows, c);
        assert IsChain(cfg.sign, cfg.cap, ChainOf(rows + committed.rows, c));
        assert ChainOf(rows + committed.rows, c) + [] == ChainOf(rows + committed.rows, c);
      }
    }
  }

  lemma {:induction false} NoForeignRows(cfg: Config, locks: map<int, nat>, t: nat, u: nat, other: Tx, c: string)
    requires t != u && Owns(cfg, locks, t, c) && RowsLocked(cfg, locks, u, other)
    ensures forall r :: r in other.rows ==> r.envelope.chain != c
  {
  }

  lemma {:induction false} SeenGrows(rows: seq<Row>, more: seq<Row>, tx: Tx, c: string, e: Envelope)
    requires e in Seen(rows, tx, c)
    ensures e in Seen(rows + more, tx, c)
  {
    ChainMembers(rows + tx.rows, c, e);
    ChainMembers(rows + more + tx.rows, c, e);
    var r :| r in rows + tx.rows && r.envelope == e;
    assert r in rows + more + tx.rows;
  }

  lemma {:induction false} ForeignCommitKeepsPhase(cfg: Config, rows: seq<Row>, locks: map<int, nat>, t: nat, tx: Tx,
                                                   u: nat, committed: Tx)
    requires t != u && TxOk(cfg, rows, locks, t, tx) && TxOk(cfg, rows, locks, u, committed)
    ensures PhaseOk(cfg, rows + committed.rows, locks, t, tx)
  {
    var p := tx.phase;
    if (p.Ready? || p.Locked? || p.TailRead? || p.Checked?) && p.seen.Some? {
      SeenGrows(rows, committed.rows, tx, p.e.chain, p.seen.value);
    }
    if p.Locked? || p.TailRead? || p.Checked? {
      NoForeignRows(cfg, locks, t, u, committed, p.e.chain);
      SeenAfterCommit(rows, committed.rows, tx, p.e.chain);
    }
  }

  lemma {:induction false} StatementKeepsInv(cfg: Config, w: World, t: nat, a: Action)
    requires Inv(cfg, w) && Enabled(cfg, w, t, a) && !a.Commit? && !a.Rollback? && !a.Begin?
    ensures Inv(cfg, Apply(cfg, w, t, a))
  {
    var w' := Apply(cfg, w, t, a);
    StatementKeepsTx(cfg, w, t, a);
    forall u | u in w'.txs && u != t
      ensures TxOk(cfg, w'.rows, w'.locks, u, w'.txs[u])
    {
      OthersKeepTheirs(cfg, w.rows, w.locks, w'.locks, u, w.txs[u]);
    }
  }

  lemma {:induction false} BeginKeepsInv(cfg: Config, w: World, t: nat)
    requires Inv(cfg, w) && t !in w.txs
    ensures Inv(cfg, Apply(cfg, w, t, Begin))
  {
    assert w.rows + [] == w.rows;
  }

  lemma {:induction false} RollbackKeepsInv(cfg: Config, w: World, t: nat)
    requires Inv(cfg, w) && t in w.txs
    ensures Inv(cfg, Apply(cfg, w, t, Rollback))
  {
    var w' := Apply(cfg, w, t, Rollback);
    forall u | u in w'.txs
      ensures TxOk(cfg, w'.rows, w'.locks, u, w'.txs[u])
    {
      OthersKeepTheirs(cfg, w.rows, w.locks, w'.locks, u, w.txs[u]);
    }
  }

  lemma {:induction false} CommitKeepsInv(cfg: Config, w: World, t: nat)
    requires Inv(cfg, w) && Enabled(cfg, w, t, Commit)
    ensures Inv(cfg, Apply(cfg, w, t, Commit))
  {
    var w', tx := Apply(cfg, w, t, Commit), w.txs[t];
    IdentitiesAppend(w.rows, tx.rows);
    forall u | u in w'.txs
      ensures TxOk(cfg, w'.rows, w'.locks, u, w'.txs[u])
    {
      ForeignCommitKeepsChains(cfg, w.rows, w.locks, u, w.txs[u], t, tx);
      ForeignCommitKeepsPhase(cfg, w.rows, w.locks, u, w.txs[u], t, tx);
      OthersKeepTheirs(cfg, w'.rows, w.locks, w'.locks, u, w.txs[u]);
    }
  }

  lemma {:induction false} StepKeepsInv(cfg: Config, w: World, t: nat, a: Action)
    requires Inv(cfg, w) && Enabled(cfg, w, t, a)
    ensures Inv(cfg, Apply(cfg, w, t, a))
  {
    if a == Begin {
      BeginKeepsInv(cfg, w, t);
    } else if a == Commit {
      CommitKeepsInv(cfg, w, t);
    } else if a == Rollback {
      RollbackKeepsInv(cfg, w, t);
    } else {
      StatementKeepsInv(cfg, w, t, a);
    }
  }

  lemma {:induction false} RunKeepsInv(cfg: Config, w: World, run: seq<(nat, Action)>)
    requires Inv(cfg, w) && RunFrom(cfg, w, run).Some?
    ensures Inv(cfg, RunFrom(cfg, w, run).value)
    decreases |run|
  {
    if |run| > 0 {
      RunKeepsInv(cfg, w, run[..|run| - 1]);
      StepKeepsInv(cfg, RunFrom(cfg, w, run[..|run| - 1]).value, run[|run| - 1].0, run[|run| - 1].1);
    }
  }

  lemma {:induction false} ReachableInv(cfg: Config, run: seq<(nat, Action)>)
    requires RunOf(cfg, run).Some?
    ensures Inv(cfg, RunOf(cfg, run).value)
  {
    RunKeepsInv(cfg, EMPTY, run);
  }

  // ---------------------------------------------------------------------------
  // What holds after every run
  // ---------------------------------------------------------------------------

  /** Every committed chain is intact, within the cap and free of repeated events, and the
      delivery intents are those of exactly the committed events, in the same order. */
  lemma {:induction false} CommittedChainsAreIntact(cfg: Config, run: seq<(nat, Action)>, chain: string)
    requires RunOf(cfg, run).Some?
    ensures IsChain(cfg.sign, cfg.cap, ChainOf(RunOf(cfg, run).value.rows, chain))
    ensures RunOf(cfg, run).value.intents == Identities(RunOf(cfg, run).value.rows)
  {
    ReachableInv(cfg, run);
  }

  lemma {:induction false} GrowthChains(a: seq<Row>, b: seq<Row>, c: seq<Row>)
    requires a <= b <= c
    ensures a <= c
  {
    assert c[..|a|] == b[..|a|];
  }

  lemma {:induction false} RowsOnlyGrow(cfg: Config, w: World, run: seq<(nat, Action)>)
    requires RunFrom(cfg, w, run).Some?
    ensures w.rows <= RunFrom(cfg, w, run).value.rows
    decreases |run|
  {
    if |run| > 0 {
      RowsOnlyGrow(cfg, w, run[..|run| - 1]);
      var before := RunFrom(cfg, w, run[..|run| - 1]).value;
      GrowthChains(w.rows, before.rows, RunFrom(cfg, w, run).value.rows);
    }
  }

  /** Whatever happens later, a committed chain is kept and grows only at its end. */
  lemma {:induction false} ChainsGrowBySuffix(cfg: Config, w: World, run: seq<(nat, Action)>, chain: string)
    requires RunFrom(cfg, w, run).Some?
    ensures ChainOf(w.rows, chain) <= ChainOf(RunFrom(cfg, w, run).value.rows, chain)
  {
    var later := RunFrom(cfg, w, run).value.rows;
    RowsOnlyGrow(cfg, w, run);
    assert later == w.rows + later[|w.rows|..];
    ChainOfAppend(w.rows, later[|w.rows|..], chain);
  }

  /** A row stands in its chain behind all earlier rows of the chain. */
  lemma {:induction false} PlaceInChain(rows: seq<Row>, i: nat, chain: string)
    requires i < |rows| && rows[i].envelope.chain == chain
    ensures |ChainOf(rows[..i], chain)| < |ChainOf(rows, chain)|
    ensures ChainOf(rows, chain)[|ChainOf(rows[..i], chain)|] == rows[i].envelope
  {
    var front, last := rows[..i], [rows[i]];
    assert rows == front + last + rows[i + 1..];
    ChainOfAppend(front + last, rows[i + 1..], chain);
    ChainOfAppend(front, last, chain);
    assert last[..0] == [];
    assert ChainOf(last, chain) == [rows[i].envelope];
  }

  lemma {:induction false} SameExpectedSameSequence(rows: seq<Row>, i: nat, j: nat)
    requires AllExtend(rows) && i < |rows| && j < |rows| && rows[i].expected == rows[j].expected
    requires rows[i].envelope.sequence >= 1 && rows[j].envelope.sequence >= 1
    ensures rows[i].envelope.sequence == rows[j].envelope.sequence
  {
    assert rows[i] in rows && rows[j] in rows;
  }

  lemma {:induction false} NumberedFromOne(cfg: Config, rows: seq<Row>, i: nat)
    requires AllChains(cfg, rows) && i < |rows|
    ensures rows[i].envelope.sequence >= 1
  {
    var chain := rows[i].envelope.chain;
    assert IsChain(cfg.sign, cfg.cap, ChainOf(rows, chain));
    PlaceInChain(rows, i, chain);
    ChainIsLinked(cfg.sign, cfg.cap, ChainOf(rows, chain), |ChainOf(rows[..i], chain)|);
  }

  /** Of all appends that expected one head of one chain, at most one is committed. */
  lemma {:induction false} OneCommitPerExpectedHead(cfg: Config, run: seq<(nat, Action)>, i: nat, j: nat)
    requires RunOf(cfg, run).Some?
    requires i < |RunOf(cfg, run).value.rows| && j < |RunOf(cfg, run).value.rows|
    requires var rows := RunOf(cfg, run).value.rows;
             rows[i].envelope.chain == rows[j].envelope.chain && rows[i].expected == rows[j].expected
    ensures i == j
  {
    var rows := RunOf(cfg, run).value.rows;
    ReachableInv(cfg, run);
    NumberedFromOne(cfg, rows, i);
    NumberedFromOne(cfg, rows, j);
    SameExpectedSameSequence(rows, i, j);
    if i < j {
      SequencesRise(cfg, rows, i, j);
    } else if j < i {
      SequencesRise(cfg, rows, j, i);
    }
  }

  /** Of two rows of a chain, the later one has the higher sequence. */
  lemma {:induction false} SequencesRise(cfg: Config, rows: seq<Row>, i: nat, j: nat)
    requires AllChains(cfg, rows) && i < j < |rows| && rows[i].envelope.chain == rows[j].envelope.chain
    ensures 1 <= rows[i].envelope.sequence < rows[j].envelope.sequence
  {
    var chain := rows[i].envelope.chain;
    assert IsChain(cfg.sign, cfg.cap, ChainOf(rows, chain));
    PlaceInChain(rows, i, chain);
    PlaceInChain(rows, j, chain);
    PlaceInChain(rows[..j], i, chain);
    assert rows[..j][..i] == rows[..i];
    ChainIsLinked(cfg.sign, cfg.cap, ChainOf(rows, chain), |ChainOf(rows[..i], chain)|);
    ChainIsLinked(cfg.sign, cfg.cap, ChainOf(rows, chain), |ChainOf(rows[..j], chain)|);
  }

  /** The verifier accepts every committed chain, against every anchor taken from it. */
  lemma {:induction false} CommittedChainsVerify(cfg: Config, run: seq<(nat, Action)>, chain: string, n: nat)
    requires RunOf(cfg, run).Some? && 0 < n <= |ChainOf(RunOf(cfg, run).value.rows, chain)|
    ensures var s := ChainOf(RunOf(cfg, run).value.rows, chain);
            Verifiable(cfg.sign, cfg.cap, Binding(chain, s[0].event.run, s[0].event.policy), s[..n], Some(HeadOf(s[n - 1])))
  {
    var rows := RunOf(cfg, run).value.rows;
    var s := ChainOf(rows, chain);
    ReachableInv(cfg, run);
    ChainMembers(rows, chain, s[0]);
    PrefixVerifies(cfg.sign, cfg.cap, s, n);
  }
}
