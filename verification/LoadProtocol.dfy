/** Any number of concurrent and retried load attempts against one database.
    Committed state, per-transaction buffers with savepoints, transaction-scoped
    advisory locks, statement snapshots, in-flight COMMIT requests and connection loss
    are explicit; every client may fail at every await. */
module LoadProtocol {
  import opened Wrappers
  import opened Collections
  import opened LoadContracts
  import opened LoadClient
  import opened Ledger

  type AttemptId = nat

  datatype Row = Row(attempt: AttemptId, unit: string)

  datatype Isolation = ReadCommitted | TransactionSnapshot

  /** The server's side of one attempt. A lost acknowledgement leaves it Open while the
      client has already gone. */
  datatype Server =
    | NoTransaction
    | Open(rows: seq<Row>, marker: Option<Marker>, audited: bool)
    | Durable
    | Discarded

  /** `log` is the history of the client; `clear` records that no marker was found. */
  datatype Attempt = Attempt(
    request: Request, isolation: Isolation, log: seq<Event>, client: Client, server: Server,
    snapshot: Option<map<string, Marker>>, holdsLock: bool, clear: bool)

  /** `publishers` is a history variable: the attempt whose commit stored each marker. */
  datatype World = World(
    rows: seq<Row>, markers: map<string, Marker>, publishers: map<string, AttemptId>,
    audited: set<AttemptId>, locks: map<int, AttemptId>, attempts: map<AttemptId, Attempt>)

  const Empty := World([], map[], map[], {}, map[], map[])

  /** The hash of the advisory lock may collide; the size of a payload is arbitrary. */
  datatype Config = Config(lockOf: string -> int, bytes: Receipt -> nat)

  datatype Action =
    | Arrive(request: Request, isolation: Isolation)
    | ClientStep(event: Event)
    | ServerCommits
    | ServerAborts

  /** READ COMMITTED takes a new snapshot for every statement. */
  function VisibleMarkers(w: World, at: Attempt): map<string, Marker>
  {
    if at.isolation == ReadCommitted || at.snapshot.None? then w.markers else at.snapshot.value
  }

  function Lookup(markers: map<string, Marker>, key: string): Option<Marker>
  {
    if key in markers then Some(markers[key]) else None
  }

  /** What the database demands for a client step that is legal for the client. What it says
      of the write loop's statements and of its counts is shown to be so in `LoadRefinement`. */
  ghost predicate Granted(cfg: Config, w: World, a: AttemptId, at: Attempt, e: Event)
  {
    match e
    case StateChecked => at.server.Open? && at.isolation == ReadCommitted
    case LockTaken =>
      at.server.Open? && at.request.key.Some? &&
      var h := cfg.lockOf(at.request.key.value); h in w.locks ==> w.locks[h] == a
    case MarkerRead(found) =>
      at.server.Open? && at.request.key.Some? &&
      Claim(cfg.bytes, Lookup(VisibleMarkers(w, at), at.request.key.value), at.request) == Ok(found)
    case Wrote(units) => at.server.Open? && Distinct(at.server.rows + Tagged(a, units))
    case GroupUndone(keep) => at.server.Open? && keep <= |at.server.rows|
    case Summarized(r) => at.server.Open? && r.inserted + r.updated == |at.server.rows|
    case AuditAppended(_) => at.server.Open?
    case MarkerInserted => at.server.Open? && at.client.receipt.Some? && cfg.bytes(at.client.receipt.value) <= at.request.maxReceiptBytes
    case CommitAcknowledged => at.server.Durable?
    case _ => true
  }

  ghost predicate Enabled(cfg: Config, w: World, a: AttemptId, act: Action)
  {
    match act
    case Arrive(_, _) => a !in w.attempts
    case ClientStep(e) =>
      a in w.attempts && Legal(w.attempts[a].request, w.attempts[a].client, e) && Granted(cfg, w, a, w.attempts[a], e)
    case ServerCommits => a in w.attempts && w.attempts[a].server.Open? && w.attempts[a].client.commitStarted
    case ServerAborts => a in w.attempts && w.attempts[a].server.Open?
  }

  function Tagged(a: AttemptId, units: seq<string>): seq<Row>
  {
    seq(|units|, i requires 0 <= i < |units| => Row(a, units[i]))
  }

  /** A cleanup that reports success before COMMIT was issued has ended the transaction. */
  predicate EndsTransaction(at: Attempt, e: Event)
  {
    e.CleanedUp? && e.ok && !at.client.commitStarted && at.server.Open?
  }

  function ServerAfter(a: AttemptId, at: Attempt, e: Event): Server
  {
    if e.Begin? then Open([], None, false)
    else if EndsTransaction(at, e) then Discarded
    else if !at.server.Open? then at.server
    else match e
      case Wrote(units) => at.server.(rows := at.server.rows + Tagged(a, units))
      case GroupUndone(keep) => if keep <= |at.server.rows| then at.server.(rows := at.server.rows[..keep]) else at.server
      case AuditAppended(_) => at.server.(audited := true)
      case MarkerInserted =>
        if at.client.receipt.Some? then at.server.(marker := Some(MarkerOf(at.request, at.client.receipt.value))) else at.server
      case _ => at.server
  }

  function Without(locks: map<int, AttemptId>, a: AttemptId): map<int, AttemptId>
  {
    map h | h in locks && locks[h] != a :: locks[h]
  }

  function LocksAfter(cfg: Config, w: World, a: AttemptId, at: Attempt, e: Event): map<int, AttemptId>
  {
    if e.LockTaken? && at.request.key.Some? then w.locks[cfg.lockOf(at.request.key.value) := a]
    else if EndsTransaction(at, e) then Without(w.locks, a)
    else w.locks
  }

  function StepClient(cfg: Config, w: World, a: AttemptId, e: Event): World
    requires Enabled(cfg, w, a, ClientStep(e))
  {
    var at := w.attempts[a];
    var next := at.(
      log := at.log + [e],
      client := Advance(at.request, at.client, e),
      server := ServerAfter(a, at, e),
      snapshot := if at.snapshot.None? && at.server.Open? then Some(w.markers) else at.snapshot,
      holdsLock := at.holdsLock || e.LockTaken?,
      clear := at.clear || (e.MarkerRead? && e.found.None?));
    w.(locks := LocksAfter(cfg, w, a, at, e), attempts := w.attempts[a := next])
  }

  function Commit(w: World, a: AttemptId): World
    requires a in w.attempts && w.attempts[a].server.Open?
  {
    var at := w.attempts[a];
    var stored := at.request.key.Some? && at.server.marker.Some?;
    World(
      w.rows + at.server.rows,
      if stored then w.markers[at.request.key.value := at.server.marker.value] else w.markers,
      if stored then w.publishers[at.request.key.value := a] else w.publishers,
      if at.server.audited then w.audited + {a} else w.audited,
      Without(w.locks, a),
      w.attempts[a := at.(server := Durable)])
  }

  function Abort(w: World, a: AttemptId): World
    requires a in w.attempts
  {
    w.(locks := Without(w.locks, a), attempts := w.attempts[a := w.attempts[a].(server := Discarded)])
  }

  function Apply(cfg: Config, w: World, a: AttemptId, act: Action): World
    requires Enabled(cfg, w, a, act)
  {
    match act
    case Arrive(request, isolation) =>
      w.(attempts := w.attempts[a := Attempt(request, isolation, [], Start, NoTransaction, None, false, false)])
    case ClientStep(e) => StepClient(cfg, w, a, e)
    case ServerCommits => Commit(w, a)
    case ServerAborts => Abort(w, a)
  }

  /** The world after a run, if every action of it was enabled. */
  ghost function RunOf(cfg: Config, run: seq<(AttemptId, Action)>): Option<World>
  {
    if |run| == 0 then Some(Empty)
    else
      var before := RunOf(cfg, run[..|run| - 1]);
      var (a, act) := run[|run| - 1];
      if before.Some? && Enabled(cfg, before.value, a, act) then Some(Apply(cfg, before.value, a, act)) else None
  }

  // ---------------------------------------------------------------------------
  // The invariant
  // ---------------------------------------------------------------------------

  /** The write loop is over and its receipt is known. */
  predicate Settled(point: Point)
  {
    point.Received? || point.Audited? || point.Marked? || point.Committing?
  }

  predicate PastClaim(c: Client)
  {
    c.point.Writing? || Settled(c.point) || c.commitStarted
  }

  predicate HasReceipt(c: Client)
  {
    Settled(c.point) || c.commitStarted
  }

  /** Writing happens only under the lock of the key, after no marker was found; a
      successful cleanup leaves nothing open unless COMMIT is on its way. */
  ghost predicate LockPart(at: Attempt)
  {
    var c := at.client;
    && !c.point.Connecting?
    && (at.holdsLock ==> at.request.key.Some?)
    && (at.clear ==> at.holdsLock)
    && (c.point.Claiming? ==> at.holdsLock)
    && (at.request.key.Some? && PastClaim(c) ==> at.clear)
    && (Ended(c.point) && c.cleanupOk ==> c.commitStarted)
  }

  ghost predicate AllTagged(a: AttemptId, rows: seq<Row>)
  {
    forall i :: 0 <= i < |rows| ==> rows[i].attempt == a
  }

  ghost predicate ReceiptCounts(at: Attempt)
    requires at.server.Open?
  {
    HasReceipt(at.client) && at.client.receipt.Some? ==>
      |at.server.rows| == at.client.receipt.value.inserted + at.client.receipt.value.updated
  }

  ghost predicate RowPart(a: AttemptId, at: Attempt)
    requires at.server.Open?
  {
    AllTagged(a, at.server.rows) && Distinct(at.server.rows) && ReceiptCounts(at)
  }

  ghost predicate MarkerSound(at: Attempt)
    requires at.server.Open?
  {
    at.server.marker.Some? ==>
      && at.request.key.Some? && at.client.receipt.Some?
      && at.server.marker.value == MarkerOf(at.request, at.client.receipt.value)
      && (at.client.point.Marked? || at.client.point.Committing? || Outside(at.client.point))
  }

  ghost predicate MarkerPresent(at: Attempt)
    requires at.server.Open?
  {
    at.request.key.Some? && (at.client.point.Marked? || at.client.commitStarted) ==> at.server.marker.Some?
  }

  ghost predicate AuditPart(at: Attempt)
    requires at.server.Open?
  {
    var c := at.client;
    && (at.server.audited ==> at.request.audit)
    && (at.request.audit && (c.point.Audited? || c.point.Marked? || c.point.Committing? || c.commitStarted) ==> at.server.audited)
  }

  ghost predicate BufferOk(a: AttemptId, at: Attempt)
    requires at.server.Open?
  {
    LockPart(at) && RowPart(a, at) && MarkerSound(at) && MarkerPresent(at) && AuditPart(at)
  }

  ghost predicate ClientPart(at: Attempt)
  {
    var c := at.client;
    && (c.point.Connecting? ==> at.server.NoTransaction?)
    && (c.point.Connecting? || c.point.Opened? ==> !at.holdsLock && !at.clear)
    && (!c.point.Connecting? && !c.point.Opened? && !Outside(c.point) ==> at.isolation == ReadCommitted)
    && (at.server.Durable? ==> c.commitStarted)
    && (c.commitStarted && c.committed ==> at.server.Durable?)
  }

  ghost predicate ReceiptPart(c: Client)
  {
    && (HasReceipt(c) ==> c.receipt.Some? && !c.receipt.value.replayed && c.receipt.value.attemptRun.None?)
    && (c.point.Connecting? || c.point.Opened? || c.point.Checked? || c.point.Claiming? || c.point.Writing? ==> c.receipt.None? && !c.committed)
    && (Settled(c.point) ==> !c.committed)
    && (c.committed ==> c.receipt.Some?)
    && (c.outcome.Some? ==> if c.outcome.value.status == Committed then c.outcome.value.result == c.receipt
                            else c.outcome.value.result.None?)
  }

  /** What one attempt knows about itself. */
  ghost predicate LocalOk(a: AttemptId, at: Attempt)
  {
    && After(at.request, at.log) == Some(at.client)
    && ClientPart(at)
    && ReceiptPart(at.client)
    && (at.server.Open? ==> BufferOk(a, at))
  }

  /** The lock of an open transaction is really its own. */
  ghost predicate LockShared(cfg: Config, locks: map<int, AttemptId>, a: AttemptId, at: Attempt)
  {
    at.server.Open? && at.holdsLock && at.request.key.Some? ==>
      var h := cfg.lockOf(at.request.key.value); h in locks && locks[h] == a
  }

  /** A key that was found without marker still has none. */
  ghost predicate ClearPart(markers: map<string, Marker>, at: Attempt)
  {
    at.server.Open? && at.clear && at.request.key.Some? ==> at.request.key.value !in markers
  }

  /** A replayed receipt is the stored one. */
  ghost predicate ReplayPart(markers: map<string, Marker>, at: Attempt)
  {
    at.client.committed && !at.client.commitStarted ==>
      && at.request.key.Some? && at.request.key.value in markers
      && markers[at.request.key.value].binding == at.request.binding
      && at.client.receipt == Some(Replayed(markers[at.request.key.value].payload, at.request.runId))
  }

  /** What one attempt may rely on in the shared state. */
  ghost predicate SharedOk(cfg: Config, w: World, a: AttemptId, at: Attempt)
  {
    LockShared(cfg, w.locks, a, at) && ClearPart(w.markers, at) && ReplayPart(w.markers, at)
  }

  ghost function CountRows(rows: seq<Row>, a: AttemptId): nat
  {
    if |rows| == 0 then 0 else CountRows(rows[..|rows| - 1], a) + if rows[|rows| - 1].attempt == a then 1 else 0
  }

  /** Every marker is the one its publisher stored, and only publishers are durable. */
  ghost predicate LedgerOk(w: World)
  {
    && w.markers.Keys == w.publishers.Keys
    && (forall k :: k in w.publishers ==>
         && w.publishers[k] in w.attempts
         && var at := w.attempts[w.publishers[k]];
            && at.request.key == Some(k) && at.server.Durable? && at.client.receipt.Some?
            && w.markers[k] == MarkerOf(at.request, at.client.receipt.value))
    && (forall a :: a in w.attempts && w.attempts[a].server.Durable? && w.attempts[a].request.key.Some? ==>
         var k := w.attempts[a].request.key.value; k in w.publishers && w.publishers[k] == a)
  }

  ghost predicate RowsDurable(w: World)
  {
    forall i :: 0 <= i < |w.rows| ==> w.rows[i].attempt in w.attempts && w.attempts[w.rows[i].attempt].server.Durable?
  }

  ghost predicate RowsCounted(w: World)
  {
    forall a :: a in w.attempts && w.attempts[a].server.Durable? ==>
      && w.attempts[a].client.receipt.Some?
      && CountRows(w.rows, a) == w.attempts[a].client.receipt.value.inserted + w.attempts[a].client.receipt.value.updated
  }

  ghost predicate AuditMatches(w: World)
  {
    forall a :: a in w.audited <==> a in w.attempts && w.attempts[a].server.Durable? && w.attempts[a].request.audit
  }

  /** Published rows, none twice, receipts and audit events belong to the durable attempts. */
  ghost predicate RowsOk(w: World)
  {
    Distinct(w.rows) && RowsDurable(w) && RowsCounted(w) && AuditMatches(w)
  }

  ghost predicate AllLocalOk(w: World)
  {
    forall a :: a in w.attempts ==> LocalOk(a, w.attempts[a])
  }

  ghost predicate AllSharedOk(cfg: Config, w: World)
  {
    forall a :: a in w.attempts ==> SharedOk(cfg, w, a, w.attempts[a])
  }

  ghost predicate Inv(cfg: Config, w: World)
  {
    AllLocalOk(w) && AllSharedOk(cfg, w) && LedgerOk(w) && RowsOk(w)
  }
}
