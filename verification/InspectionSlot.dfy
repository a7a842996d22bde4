/** The single worker slot of a database reader: a non-blocking lock, a flag that closes the
    slot for good, and the run of one blocking worker under a deadline. */
module InspectionSlot {
  import opened Wrappers

  // ---------------------------------------------------------------------------
  // One run of a worker
  // ---------------------------------------------------------------------------

  /** What an `await` on the thread task ends with. `Detached` is a cancellation of the
      task itself: it is done, but its worker thread runs on. */
  datatype Wake = Finished | Detached | Elapsed | Cancelled

  datatype Exit = Returned | TimedOut | CallerCancelled | CleanupFailed

  /** The worker thread, its asyncio task and the event loop around them: the
      n-th wait ends as `wakes(n)` says, and `clock(n)` is the monotonic time after it. */
  class Worker {
    const wakes: nat -> Wake
    const clock: nat -> int
    var waits: nat
    var taskDone: bool
    var ended: bool
    var interrupted: bool

    constructor (wakes: nat -> Wake, clock: nat -> int)
      ensures this.wakes == wakes && this.clock == clock && waits == 0 && !taskDone && !ended && !interrupted
    {
      this.wakes, this.clock := wakes, clock;
      waits, taskDone, ended, interrupted := 0, false, false, false;
    }

    /** `asyncio.wait` neither cancels the worker nor reports its error. */
    method Wait() returns (wake: Wake)
      modifies this`waits, this`taskDone, this`ended
      ensures waits == old(waits) + 1 && wake == wakes(old(waits))
      ensures taskDone == (old(taskDone) || wake.Finished? || wake.Detached?)
      ensures ended == (old(ended) || wake.Finished?)
    {
      wake := wakes(waits);
      waits := waits + 1;
      taskDone := taskDone || wake.Finished? || wake.Detached?;
      ended := ended || wake.Finished?;
    }

    /** Sets the flag the worker polls and interrupts its connection. */
    method Cancel()
      modifies this`interrupted
      ensures interrupted
    {
      interrupted := true;
    }
  }

  /** Time advances between two waits. */
  ghost predicate Advances(clock: nat -> int)
  {
    forall i: nat, j: nat :: i < j ==> clock(i) < clock(j)
  }

  ghost predicate NobodyDetaches(wakes: nat -> Wake)
  {
    forall n: nat :: !wakes(n).Detached?
  }

  predicate Done(wake: Wake)
  {
    wake.Finished? || wake.Detached?
  }

  /** The cleanup, which may take `cleanup` from the end of the first wait on, gets its answer
      with wait `n`: only cancellations came before, and each of its waits began in time. */
  ghost predicate Answered(wakes: nat -> Wake, clock: nat -> int, cleanup: nat, n: nat)
  {
    n >= 1 && Done(wakes(n)) && OnlyCancelled(wakes, clock, clock(1) + cleanup, n) && clock(n) < clock(1) + cleanup
  }

  /** The waits of the cleanup before the `n`-th began in time and were cancelled. */
  ghost predicate OnlyCancelled(wakes: nat -> Wake, clock: nat -> int, deadline: int, n: nat)
  {
    forall k: nat :: 1 <= k < n ==> wakes(k).Cancelled? && clock(k) < deadline
  }

  /** After `n` waits the cleanup has no answer: its time is up, or a wait ran into it. */
  ghost predicate Unanswered(wakes: nat -> Wake, clock: nat -> int, cleanup: nat, n: nat)
  {
    && n >= 1 && OnlyCancelled(wakes, clock, clock(1) + cleanup, n - 1) && !Done(wakes(n - 1))
    && (n >= 2 ==> clock(n - 1) < clock(1) + cleanup)
    && (clock(n) >= clock(1) + cleanup || (n >= 2 && wakes(n - 1).Elapsed?))
  }

  lemma {:induction false} NeverAnswered(wakes: nat -> Wake, clock: nat -> int, cleanup: nat, n: nat, m: nat)
    requires Advances(clock) && Unanswered(wakes, clock, cleanup, n)
    ensures !Answered(wakes, clock, cleanup, m)
  {
    if n < m {
      assert clock(n) < clock(m);
    }
  }

  lemma {:induction false} NothingDone(wakes: nat -> Wake, clock: nat -> int, cleanup: nat, n: nat)
    requires Unanswered(wakes, clock, cleanup, n) && !Done(wakes(0))
    ensures forall k: nat :: k < n ==> !Done(wakes(k))
  {
  }

  /** The cleanup: waits for the worker as long as there is time. */
  method AwaitCleanup(worker: Worker, cleanup: nat) returns (ok: bool)
    requires Advances(worker.clock) && worker.waits == 1 && worker.interrupted
    requires worker.taskDone == Done(worker.wakes(0)) && worker.ended == worker.wakes(0).Finished?
    modifies worker
    ensures worker.interrupted && worker.waits >= 1
    ensures ok == worker.taskDone == Done(worker.wakes(worker.waits - 1))
    ensures worker.ended == worker.wakes(worker.waits - 1).Finished?
    ensures Done(worker.wakes(0)) ==> worker.waits == 1
    ensures ok && worker.waits > 1 ==> Answered(worker.wakes, worker.clock, cleanup, worker.waits - 1)
    ensures !ok ==> Unanswered(worker.wakes, worker.clock, cleanup, worker.waits)
  {
    var deadline := worker.clock(worker.waits) + cleanup;
    while !worker.taskDone
      invariant worker.waits >= 1 && worker.interrupted
      invariant OnlyCancelled(worker.wakes, worker.clock, deadline, worker.waits - 1)
      invariant worker.waits > 1 ==> !Done(worker.wakes(0)) && worker.clock(worker.waits - 1) < deadline
      invariant worker.waits > 1 && !worker.taskDone ==> worker.wakes(worker.waits - 1).Cancelled?
      invariant worker.taskDone == Done(worker.wakes(worker.waits - 1))
      invariant worker.ended == worker.wakes(worker.waits - 1).Finished?
      decreases deadline - worker.clock(worker.waits), !worker.taskDone
    {
      var remaining := deadline - worker.clock(worker.waits);
      if remaining <= 0 {
        return false;
      }
      ghost var before := worker.waits;
      var wake := worker.Wait();
      assert worker.clock(before) < worker.clock(worker.waits);
      if wake.Cancelled? {
        worker.Cancel();
        continue;
      }
      if wake.Elapsed? {
        return false;
      }
    }
    ok := true;
  }

  /** `ownTimeout` says that the operation itself ends with a timeout error, which takes
      the same way out as the deadline. */
  method RunInspection(worker: Worker, cleanup: nat, cancelling: bool, ownTimeout: bool) returns (exit: Exit)
    requires Advances(worker.clock) && worker.waits == 0 && !worker.taskDone && !worker.ended
    modifies worker
    ensures worker.taskDone <==> exit != CleanupFailed
    ensures worker.waits >= 1
    ensures exit != CleanupFailed && !worker.ended <==> worker.wakes(worker.waits - 1).Detached?
    ensures NobodyDetaches(worker.wakes) ==> (worker.ended <==> exit != CleanupFailed)
    ensures exit.Returned? <==> worker.wakes(0).Finished? && !ownTimeout
    ensures worker.interrupted == (old(worker.interrupted) || !exit.Returned?)
    ensures exit.CallerCancelled? ==> cancelling
    ensures exit.TimedOut? ==> !cancelling
    ensures exit.CleanupFailed? <==>
              !Done(worker.wakes(0)) && forall n: nat :: !Answered(worker.wakes, worker.clock, cleanup, n)
    ensures exit.CleanupFailed? ==> forall n: nat :: n < worker.waits ==> !Done(worker.wakes(n))
    ensures exit.CleanupFailed? ==> Unanswered(worker.wakes, worker.clock, cleanup, worker.waits)
  {
    var wake := worker.Wait();
    if wake.Finished? && !ownTimeout {
      return Returned;
    }
    worker.Cancel();
    var ok := AwaitCleanup(worker, cleanup);
    if !ok {
      NothingDone(worker.wakes, worker.clock, cleanup, worker.waits);
      forall n: nat
        ensures !Answered(worker.wakes, worker.clock, cleanup, n)
      {
        NeverAnswered(worker.wakes, worker.clock, cleanup, worker.waits, n);
      }
      return CleanupFailed;
    }
    exit := if cancelling then CallerCancelled else TimedOut;
  }

  // ---------------------------------------------------------------------------
  // Many callers of one reader
  // ---------------------------------------------------------------------------

  /** Where a call stands. The argument `unavailable` is evaluated before the lock is
      tried, which is why these are two points. */
  datatype Phase =
    | FlagRead(unavailable: bool)
    | Running
    | GaveUp
    | Marked
    | Leaving
    | Gone
    | Refused

  /** `alive` are the calls whose worker thread runs, `detached` those whose thread task
      somebody else cancelled, `given` those that gave their worker up. */
  datatype Reader = Reader(
    lock: Option<nat>, unavailable: bool, calls: map<nat, Phase>, alive: set<nat>, detached: set<nat>, given: set<nat>)

  const FRESH := Reader(None, false, map[], {}, {}, {})

  /** `thread` names the thread, with its event loop, on which a call is made; `exposed` says
      that somebody other than the call may cancel its thread task, or close its coroutine
      while it awaits that task. Either way the call leaves as if its worker had finished. */
  datatype Config = Config(thread: nat -> nat, exposed: nat -> bool)

  datatype Action = ReadFlag | TryAcquire | WorkerEnds | TaskCancelled | Exits | GivesUp | SetsFlag | Releases

  /** Points between which the call does not await, so its thread runs nobody else. */
  predicate Busy(p: Phase)
  {
    p.FlagRead? || p.GaveUp? || p.Marked? || p.Leaving?
  }

  /** No other call on the same thread is in the middle of such a stretch. */
  predicate MayRun(cfg: Config, w: Reader, c: nat)
  {
    forall d :: d in w.calls && d != c && cfg.thread(d) == cfg.thread(c) ==> !Busy(w.calls[d])
  }

  /** What the call sees of its worker: whether the asyncio task has ended. */
  predicate TaskDone(w: Reader, c: nat)
  {
    c !in w.alive || c in w.detached
  }

  predicate Enabled(cfg: Config, w: Reader, c: nat, a: Action)
  {
    match a
    case ReadFlag => c !in w.calls && MayRun(cfg, w, c)
    case TryAcquire => c in w.calls && w.calls[c].FlagRead? && MayRun(cfg, w, c)
    case WorkerEnds => c in w.alive
    case TaskCancelled => cfg.exposed(c) && c in w.calls && w.calls[c].Running? && MayRun(cfg, w, c)
    case Exits => c in w.calls && w.calls[c].Running? && TaskDone(w, c) && MayRun(cfg, w, c)
    case GivesUp => c in w.calls && w.calls[c].Running? && c !in w.detached && MayRun(cfg, w, c)
    case SetsFlag => c in w.calls && w.calls[c].GaveUp? && MayRun(cfg, w, c)
    case Releases => c in w.calls && (w.calls[c].Marked? || w.calls[c].Leaving?) && MayRun(cfg, w, c)
  }

  predicate Granted(w: Reader, c: nat)
    requires c in w.calls && w.calls[c].FlagRead?
  {
    !w.calls[c].unavailable && w.lock.None?
  }

  function Apply(cfg: Config, w: Reader, c: nat, a: Action): Reader
    requires Enabled(cfg, w, c, a)
  {
    match a
    case ReadFlag => w.(calls := w.calls[c := FlagRead(w.unavailable)])
    case TryAcquire =>
      if Granted(w, c) then w.(calls := w.calls[c := Running], lock := Some(c), alive := w.alive + {c})
      else w.(calls := w.calls[c := Refused])
    case WorkerEnds => w.(alive := w.alive - {c})
    case TaskCancelled => w.(detached := w.detached + {c})
    case Exits => w.(calls := w.calls[c := Leaving])
    case GivesUp => w.(calls := w.calls[c := GaveUp], given := w.given + {c})
    case SetsFlag => w.(calls := w.calls[c := Marked], unavailable := true)
    case Releases => w.(calls := w.calls[c := Gone], lock := None)
  }

  function RunOf(cfg: Config, run: seq<(nat, Action)>): Option<Reader>
  {
    if |run| == 0 then Some(FRESH)
    else
      var before := RunOf(cfg, run[..|run| - 1]);
      var (c, a) := run[|run| - 1];
      if before.Some? && Enabled(cfg, before.value, c, a) then Some(Apply(cfg, before.value, c, a)) else None
  }

  /** At most one live worker, and no grant once a worker was given up. */
  ghost predicate Safe(w: Reader)
  {
    && (forall a, b :: a in w.alive && b in w.alive ==> a == b)
    && (w.given != {} ==> forall c :: c in w.calls && w.calls[c].FlagRead? ==> !Granted(w, c))
  }

  ghost predicate AlwaysSafe(cfg: Config)
  {
    forall run :: RunOf(cfg, run).Some? ==> Safe(RunOf(cfg, run).value)
  }

  ghost predicate OneThread(cfg: Config)
  {
    forall a: nat, b: nat :: cfg.thread(a) == cfg.thread(b)
  }

  /** Thread tasks are cancelled and coroutines closed by nobody; callers may be cancelled at
      any time. */
  ghost predicate OnlyCallersCancel(cfg: Config)
  {
    forall c: nat :: !cfg.exposed(c)
  }

  // ---------------------------------------------------------------------------
  // In every run
  // ---------------------------------------------------------------------------

  /** A worker that outlives the point where its call leaves was given up, or somebody else
      cancelled its task. */
  ghost predicate Accounted(w: Reader)
  {
    && (forall c :: c in w.alive ==> c in w.calls)
    && (forall c :: c in w.calls && (w.calls[c].GaveUp? || w.calls[c].Marked?) ==> c in w.given)
    && (forall c :: c in w.alive && w.calls[c].Leaving? ==> c in w.detached)
    && (forall c :: c in w.alive && w.calls[c].Gone? ==> c in w.given || c in w.detached)
    && (w.unavailable ==> w.given != {})
  }

  lemma {:induction false} StepKeepsAccounted(cfg: Config, w: Reader, c: nat, a: Action)
    requires Accounted(w) && Enabled(cfg, w, c, a)
    ensures Accounted(Apply(cfg, w, c, a))
  {
  }

  lemma {:induction false} ReachableAccounted(cfg: Config, run: seq<(nat, Action)>)
    requires RunOf(cfg, run).Some?
    ensures Accounted(RunOf(cfg, run).value)
    decreases |run|
  {
    if |run| > 0 {
      ReachableAccounted(cfg, run[..|run| - 1]);
      StepKeepsAccounted(cfg, RunOf(cfg, run[..|run| - 1]).value, run[|run| - 1].0, run[|run| - 1].1);
    }
  }

  /** On any threads: a call that has left without giving up leaves no worker behind, unless
      somebody else cancelled its thread task. */
  lemma {:induction false} NormalExitLeavesNoWorker(cfg: Config, run: seq<(nat, Action)>, c: nat)
    requires RunOf(cfg, run).Some? && c in RunOf(cfg, run).value.calls && RunOf(cfg, run).value.calls[c].Gone?
    ensures c in RunOf(cfg, run).value.alive ==> c in RunOf(cfg, run).value.given || c in RunOf(cfg, run).value.detached
  {
    ReachableAccounted(cfg, run);
  }

  // ---------------------------------------------------------------------------
  // One thread, and nobody cancels thread tasks
  // ---------------------------------------------------------------------------

  predicate HoldsSlot(p: Phase)
  {
    p.Running? || p.GaveUp? || p.Marked? || p.Leaving?
  }

  ghost predicate LockOk(w: Reader)
  {
    && (forall c :: c in w.calls && HoldsSlot(w.calls[c]) ==> w.lock == Some(c))
    && (w.lock.Some? ==> w.lock.value in w.calls && HoldsSlot(w.calls[w.lock.value]))
  }

  ghost predicate FlagOk(w: Reader)
  {
    && (forall c :: c in w.calls && w.calls[c].FlagRead? ==> w.calls[c].unavailable == w.unavailable)
    && (forall c :: c in w.calls && w.calls[c].Marked? ==> w.unavailable)
    && (forall c :: c in w.calls && (w.calls[c].Running? || w.calls[c].GaveUp? || w.calls[c].Leaving?) ==> !w.unavailable)
    && (w.given != {} ==> w.unavailable || SomebodyGivesUp(w))
  }

  /** A call that gave its worker up has not yet set the flag. */
  ghost predicate SomebodyGivesUp(w: Reader)
  {
    exists c :: c in w.calls && w.calls[c].GaveUp?
  }

  ghost predicate AliveOk(w: Reader)
  {
    && w.detached == {}
    && (forall c :: c in w.alive ==> c in w.calls && (HoldsSlot(w.calls[c]) || (w.calls[c].Gone? && w.unavailable)))
    && (forall a, b :: a in w.alive && b in w.alive ==> a == b)
    && (forall a, c :: a in w.alive && c in w.calls && HoldsSlot(w.calls[c]) ==> a == c)
    && (forall c :: c in w.calls && w.calls[c].Leaving? ==> c !in w.alive)
  }

  /** With one thread the flag cannot change between reading it and trying the lock, and
      a given-up worker keeps the slot until the flag is set. */
  ghost predicate Inv(w: Reader)
  {
    LockOk(w) && FlagOk(w) && AliveOk(w)
  }

  /** Nobody else is between reading the flag and trying the lock, or about to leave. */
  ghost predicate Alone(w: Reader, c: nat)
  {
    forall d :: d in w.calls && d != c ==> !Busy(w.calls[d])
  }

  lemma {:induction false} StepKeepsLock(cfg: Config, w: Reader, c: nat, a: Action)
    requires LockOk(w) && Enabled(cfg, w, c, a)
    ensures LockOk(Apply(cfg, w, c, a))
  {
  }

  lemma {:induction false} StepKeepsGiver(cfg: Config, w: Reader, c: nat, a: Action)
    requires FlagOk(w) && Enabled(cfg, w, c, a)
    requires Apply(cfg, w, c, a).given != {} && !Apply(cfg, w, c, a).unavailable
    ensures SomebodyGivesUp(Apply(cfg, w, c, a))
  {
    if a.GivesUp? {
      assert Apply(cfg, w, c, a).calls[c].GaveUp?;
    } else {
      var g :| g in w.calls && w.calls[g].GaveUp?;
      assert Apply(cfg, w, c, a).calls[g].GaveUp?;
    }
  }

  lemma {:induction false} StepKeepsFlag(cfg: Config, w: Reader, c: nat, a: Action)
    requires LockOk(w) && FlagOk(w) && Enabled(cfg, w, c, a) && (!a.WorkerEnds? ==> Alone(w, c))
    ensures FlagOk(Apply(cfg, w, c, a))
  {
    if Apply(cfg, w, c, a).given != {} && !Apply(cfg, w, c, a).unavailable {
      StepKeepsGiver(cfg, w, c, a);
    }
  }

  lemma {:induction false} StepKeepsAlive(cfg: Config, w: Reader, c: nat, a: Action)
    requires Inv(w) && Enabled(cfg, w, c, a) && !a.TaskCancelled?
    ensures AliveOk(Apply(cfg, w, c, a))
  {
  }

  lemma {:induction false} StepKeepsInv(cfg: Config, w: Reader, c: nat, a: Action)
    requires OneThread(cfg) && OnlyCallersCancel(cfg) && Inv(w) && Enabled(cfg, w, c, a)
    ensures Inv(Apply(cfg, w, c, a))
  {
    if !a.WorkerEnds? {
      forall d | d in w.calls && d != c
        ensures !Busy(w.calls[d])
      {
        assert cfg.thread(d) == cfg.thread(c);
      }
    }
    StepKeepsLock(cfg, w, c, a);
    StepKeepsFlag(cfg, w, c, a);
    StepKeepsAlive(cfg, w, c, a);
  }

  lemma {:induction false} ReachableInv(cfg: Config, run: seq<(nat, Action)>)
    requires OneThread(cfg) && OnlyCallersCancel(cfg) && RunOf(cfg, run).Some?
    ensures Inv(RunOf(cfg, run).value)
    decreases |run|
  {
    if |run| > 0 {
      ReachableInv(cfg, run[..|run| - 1]);
      StepKeepsInv(cfg, RunOf(cfg, run[..|run| - 1]).value, run[|run| - 1].0, run[|run| - 1].1);
    }
  }

  lemma {:induction false} InvIsSafe(w: Reader)
    requires Inv(w)
    ensures Safe(w)
  {
    if w.given != {} && !w.unavailable {
      var g :| g in w.calls && w.calls[g].GaveUp?;
      assert w.lock == Some(g);
    }
  }

  // ---------------------------------------------------------------------------
  // The two ways to lose it
  // ---------------------------------------------------------------------------

  /** The late caller reads the flag, then the first one gives up its live worker, sets the
      flag and frees the lock, and then the late caller takes the lock. */
  function Overtaken(first: nat, late: nat): seq<(nat, Action)>
  {
    [(first, ReadFlag), (first, TryAcquire), (late, ReadFlag), (first, GivesUp), (first, SetsFlag), (first, Releases), (late, TryAcquire)]
  }

  /** The thread task of the first call is cancelled while its worker runs; the call leaves
      by the ordinary way, and the next one is granted the slot. */
  function Orphaned(first: nat, next: nat): seq<(nat, Action)>
  {
    [(first, ReadFlag), (first, TryAcquire), (first, TaskCancelled), (first, Exits), (first, Releases), (next, ReadFlag), (next, TryAcquire)]
  }

  lemma {:induction false} Extend(cfg: Config, run: seq<(nat, Action)>, c: nat, a: Action) returns (longer: seq<(nat, Action)>)
    requires RunOf(cfg, run).Some? && Enabled(cfg, RunOf(cfg, run).value, c, a)
    ensures longer == run + [(c, a)] && RunOf(cfg, longer) == Some(Apply(cfg, RunOf(cfg, run).value, c, a))
  {
    longer := run + [(c, a)];
    assert longer[..|run|] == run;
  }

  lemma {:induction false} SlotTaken(cfg: Config, first: nat)
    ensures RunOf(cfg, [(first, ReadFlag), (first, TryAcquire)]) ==
            Some(Reader(Some(first), false, map[first := Running], {first}, {}, {}))
  {
    var run := Extend(cfg, [], first, ReadFlag);
    run := Extend(cfg, run, first, TryAcquire);
    assert RunOf(cfg, run).value.calls == map[first := Running];
    assert RunOf(cfg, run).value.alive == {first};
    assert run == [(first, ReadFlag), (first, TryAcquire)];
  }

  lemma {:induction false} LateCallerReads(cfg: Config, first: nat, late: nat)
    requires cfg.thread(first) != cfg.thread(late)
    ensures RunOf(cfg, Overtaken(first, late)[..4]) ==
            Some(Reader(Some(first), false, map[first := GaveUp, late := FlagRead(false)], {first}, {}, {first}))
  {
    SlotTaken(cfg, first);
    var run := Extend(cfg, [(first, ReadFlag), (first, TryAcquire)], late, ReadFlag);
    run := Extend(cfg, run, first, GivesUp);
    assert RunOf(cfg, run).value.calls == map[first := GaveUp, late := FlagRead(false)];
    assert RunOf(cfg, run).value.given == {first};
    assert run == Overtaken(first, late)[..4];
  }

  lemma {:induction false} FirstCallerGivesUp(cfg: Config, first: nat, late: nat)
    requires cfg.thread(first) != cfg.thread(late)
    ensures RunOf(cfg, Overtaken(first, late)[..6]) ==
            Some(Reader(None, true, map[first := Gone, late := FlagRead(false)], {first}, {}, {first}))
  {
    LateCallerReads(cfg, first, late);
    var run := Extend(cfg, Overtaken(first, late)[..4], first, SetsFlag);
    run := Extend(cfg, run, first, Releases);
    assert RunOf(cfg, run).value.calls == map[first := Gone, late := FlagRead(false)];
    assert run == Overtaken(first, late)[..6];
  }

  /** From two threads, two workers can be alive at once, the second one granted the slot
      after the first one was given up. */
  lemma {:induction false} TwoThreadsTwoWorkers(cfg: Config, first: nat, late: nat)
    requires cfg.thread(first) != cfg.thread(late)
    ensures RunOf(cfg, Overtaken(first, late)) ==
            Some(Reader(Some(late), true, map[first := Gone, late := Running], {first, late}, {}, {first}))
  {
    FirstCallerGivesUp(cfg, first, late);
    var run := Extend(cfg, Overtaken(first, late)[..6], late, TryAcquire);
    assert RunOf(cfg, run).value.calls == map[first := Gone, late := Running];
    assert RunOf(cfg, run).value.alive == {first, late};
    assert run == Overtaken(first, late);
  }

  lemma {:induction false} OrphanLeftBehind(cfg: Config, first: nat, next: nat)
    requires cfg.exposed(first)
    ensures RunOf(cfg, Orphaned(first, next)[..5]) == Some(Reader(None, false, map[first := Gone], {first}, {first}, {}))
  {
    SlotTaken(cfg, first);
    var run := Extend(cfg, [(first, ReadFlag), (first, TryAcquire)], first, TaskCancelled);
    run := Extend(cfg, run, first, Exits);
    run := Extend(cfg, run, first, Releases);
    assert RunOf(cfg, run).value.calls == map[first := Gone];
    assert RunOf(cfg, run).value.detached == {first};
    assert run == Orphaned(first, next)[..5];
  }

  /** Even on one thread, a thread task that others cancel leaves a live worker behind an
      open slot, and the next call is granted it. */
  lemma {:induction false} CancelledTaskTwoWorkers(cfg: Config, first: nat, next: nat)
    requires cfg.exposed(first) && first != next
    ensures RunOf(cfg, Orphaned(first, next)) ==
            Some(Reader(Some(next), false, map[first := Gone, next := Running], {first, next}, {first}, {}))
  {
    OrphanLeftBehind(cfg, first, next);
    var run := Extend(cfg, Orphaned(first, next)[..5], next, ReadFlag);
    run := Extend(cfg, run, next, TryAcquire);
    assert RunOf(cfg, run).value.calls == map[first := Gone, next := Running];
    assert RunOf(cfg, run).value.alive == {first, next};
    assert run == Orphaned(first, next);
  }

  /** The slot is safe in every run exactly when all calls come from one thread and nobody
      but the calls themselves cancels anything of theirs. */
  lemma {:induction false} SafeExactlyOnOneThread(cfg: Config)
    ensures AlwaysSafe(cfg) <==> OneThread(cfg) && OnlyCallersCancel(cfg)
  {
    if OneThread(cfg) && OnlyCallersCancel(cfg) {
      forall run | RunOf(cfg, run).Some?
        ensures Safe(RunOf(cfg, run).value)
      {
        ReachableInv(cfg, run);
        InvIsSafe(RunOf(cfg, run).value);
      }
    } else if !OneThread(cfg) {
      var first: nat, late: nat :| cfg.thread(first) != cfg.thread(late);
      TwoThreadsTwoWorkers(cfg, first, late);
      NotSafe(cfg, Overtaken(first, late), first, late);
    } else {
      var first: nat :| cfg.exposed(first);
      CancelledTaskTwoWorkers(cfg, first, first + 1);
      NotSafe(cfg, Orphaned(first, first + 1), first, first + 1);
    }
  }

  lemma {:induction false} NotSafe(cfg: Config, run: seq<(nat, Action)>, a: nat, b: nat)
    requires a != b && RunOf(cfg, run).Some? && a in RunOf(cfg, run).value.alive && b in RunOf(cfg, run).value.alive
    ensures !AlwaysSafe(cfg)
  {
  }
}
