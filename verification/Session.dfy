/**
 * The wake-up signal at its two ends: a client backend's guard and commit callback
 * (src/lib.rs:6-7, 98-124), and the shared flag and latch pointer (src/shmem.rs).
 */
module Session {
  import opened Prelude

  class Latch {
    var isSet: bool

    constructor ()
      ensures !isSet
    {
      isSet := false;
    }
  }

  class SharedMemory {
    var shouldWake: bool
    var workerLatch: Latch?

    constructor ()
      ensures !shouldWake && workerLatch == null
    {
      shouldWake, workerLatch := false, null;
    }

    method StoreLatch(latch: Latch)
      modifies `workerLatch
      ensures workerLatch == latch
    {
      workerLatch := latch;
    }

    method ClearLatch()
      modifies `workerLatch
      ensures workerLatch == null
    {
      workerLatch := null;
    }

    /** Sets the published latch; with none published it does nothing. */
    method SetLatch()
      modifies workerLatch
      ensures workerLatch != null ==> workerLatch.isSet
    {
      if workerLatch != null {
        workerLatch.isSet := true;
      }
    }

    /** `on_worker_exit`: a wake-up stays pending for the next incarnation (src/worker.rs:9-14). */
    method OnWorkerExit()
      modifies this
      ensures shouldWake && workerLatch == null
    {
      shouldWake := true;
      ClearLatch();
    }

    /** The worker's compare-exchange true to false (src/worker.rs:47-52). */
    method ClaimWake() returns (claimed: bool)
      modifies `shouldWake
      ensures claimed == old(shouldWake) && !shouldWake
    {
      claimed := shouldWake;
      if claimed {
        shouldWake := false;
      }
    }
  }

  // ----- One client backend -----

  datatype XactEvent =
    | Commit | ParallelCommit | Abort | ParallelAbort
    | PreCommit | ParallelPreCommit | Prepare | PrePrepare

  /** What happens in one backend: a call is enqueued, a savepoint is rolled back, a callback runs. */
  datatype Event = Enqueued | RolledBackTo(kept: nat) | Xact(event: XactEvent)

  function GuardAfter(guard: bool, event: Event): bool {
    match event
    case Enqueued => true
    case RolledBackTo(_) => guard
    case Xact(x) => guard && x !in {Commit, ParallelCommit, Abort, ParallelAbort}
  }

  predicate Signals(guard: bool, event: Event) {
    guard && event.Xact? && (event.event.Commit? || event.event.ParallelCommit?)
  }

  /** What the callback reads and writes: guard, flag, and the published latch if there is one. */
  datatype Signal = Signal(guard: bool, flag: bool, latch: Option<bool>)

  function AfterCallback(s: Signal, event: XactEvent): Signal {
    Signal(GuardAfter(s.guard, Xact(event)),
           s.flag || Signals(s.guard, Xact(event)),
           if s.latch.Some? && Signals(s.guard, Xact(event)) then Some(true) else s.latch)
  }

  class Client {
    var guard: bool
    const shared: SharedMemory

    constructor (shared: SharedMemory)
      ensures !guard && this.shared == shared
    {
      guard := false;
      this.shared := shared;
    }

    function Now(): Signal
      reads this, shared, shared.workerLatch
    {
      Signal(guard, shared.shouldWake,
             if shared.workerLatch == null then None else Some(shared.workerLatch.isSet))
    }

    /** The end of `grpc_call_async`, once the row is inserted. */
    method RaiseGuard()
      modifies `guard
      ensures guard == GuardAfter(old(guard), Enqueued)
    {
      guard := true;
    }

    /** `wake_worker_on_commit`: on a commit with the guard up, flag first, then latch. */
    method WakeWorkerOnCommit(event: XactEvent)
      modifies this`guard, shared`shouldWake, shared.workerLatch
      ensures Now() == AfterCallback(old(Now()), event)
      ensures guard == (old(guard) && event in {PreCommit, ParallelPreCommit, Prepare, PrePrepare})
      ensures var signals := old(guard) && event in {Commit, ParallelCommit};
              && shared.shouldWake == (old(shared.shouldWake) || signals)
              && (shared.workerLatch != null ==>
                    shared.workerLatch.isSet == (old(shared.workerLatch.isSet) || signals))
    {
      if event == Commit || event == ParallelCommit {
        var was := guard;
        guard := false;
        if was {
          shared.shouldWake := true;
          shared.SetLatch();
        }
      } else if event == Abort || event == ParallelAbort {
        guard := false;
      }
    }
  }

  // ----- Whole transactions -----

  /** The guard after a sequence of events, and how many of them signalled the worker. */
  function After(guard: bool, events: seq<Event>): bool
    decreases events
  {
    if events == [] then guard else After(GuardAfter(guard, events[0]), events[1..])
  }

  function SignalCount(guard: bool, events: seq<Event>): nat
    decreases events
  {
    if events == [] then 0
    else (if Signals(guard, events[0]) then 1 else 0) + SignalCount(GuardAfter(guard, events[0]), events[1..])
  }

  /** A transaction: what it did, and whether it committed. */
  datatype Transaction = Transaction(body: seq<Event>, commits: bool)

  predicate Body(events: seq<Event>) {
    forall e :: e in events ==> !e.Xact?
  }

  function EventsOf(t: Transaction): seq<Event> {
    t.body + if t.commits then [Xact(PreCommit), Xact(Commit)] else [Xact(Abort)]
  }

  predicate EnqueuedAny(events: seq<Event>) {
    Enqueued in events
  }

  function History(ts: seq<Transaction>): seq<Event> {
    if ts == [] then [] else EventsOf(ts[0]) + History(ts[1..])
  }

  function Committed(ts: seq<Transaction>): nat {
    if ts == [] then 0
    else (if ts[0].commits && EnqueuedAny(ts[0].body) then 1 else 0) + Committed(ts[1..])
  }

  lemma {:induction false} Concat(guard: bool, a: seq<Event>, b: seq<Event>)
    ensures After(guard, a + b) == After(After(guard, a), b)
    ensures SignalCount(guard, a + b) == SignalCount(guard, a) + SignalCount(After(guard, a), b)
    decreases a
  {
    if a == [] {
      assert a + b == b;
    } else {
      assert (a + b)[1..] == a[1..] + b;
      Concat(GuardAfter(guard, a[0]), a[1..], b);
    }
  }

  lemma {:induction false} BodyRaises(guard: bool, body: seq<Event>)
    requires Body(body)
    ensures After(guard, body) == (guard || EnqueuedAny(body)) && SignalCount(guard, body) == 0
    decreases body
  {
    if body != [] {
      assert !body[0].Xact?;
      assert body == [body[0]] + body[1..];
      BodyRaises(GuardAfter(guard, body[0]), body[1..]);
    }
  }

  /** From a lowered guard, one transaction signals once if it commits enqueues, and lowers it again. */
  lemma OneTransaction(t: Transaction)
    requires Body(t.body)
    ensures !After(false, EventsOf(t))
    ensures SignalCount(false, EventsOf(t)) == if t.commits && EnqueuedAny(t.body) then 1 else 0
  {
    BodyRaises(false, t.body);
    if t.commits {
      Concat(false, t.body, [Xact(PreCommit), Xact(Commit)]);
      CommitEvents(EnqueuedAny(t.body));
    } else {
      Concat(false, t.body, [Xact(Abort)]);
      assert [Xact(Abort)][1..] == [];
    }
  }

  lemma CommitEvents(guard: bool)
    ensures !After(guard, [Xact(PreCommit), Xact(Commit)])
    ensures SignalCount(guard, [Xact(PreCommit), Xact(Commit)]) == if guard then 1 else 0
  {
    var end := [Xact(PreCommit), Xact(Commit)];
    assert end[1..] == [Xact(Commit)] && [Xact(Commit)][1..] == [];
    assert !After(guard, end[1..]) && SignalCount(guard, end[1..]) == if guard then 1 else 0;
  }

  /**
   * Over any history of a backend: the guard is down at the start of every transaction, each
   * committed transaction with any number of enqueues signals once, and no other ever signals.
   */
  lemma {:induction false} OneSignalPerCommit(ts: seq<Transaction>)
    requires forall t :: t in ts ==> Body(t.body)
    ensures !After(false, History(ts))
    ensures SignalCount(false, History(ts)) == Committed(ts)
  {
    if ts != [] {
      OneTransaction(ts[0]);
      Concat(false, EventsOf(ts[0]), History(ts[1..]));
      OneSignalPerCommit(ts[1..]);
    }
  }

  // ----- A rolled-back savepoint still signals -----

  /** How many enqueued rows the transaction still holds. */
  function RowsLeft(body: seq<Event>): nat {
    if body == [] then 0
    else
      var rows := RowsLeft(body[..|body| - 1]);
      match body[|body| - 1]
      case Enqueued => rows + 1
      case RolledBackTo(kept) => if kept < rows then kept else rows
      case Xact(_) => rows
  }

  lemma {:induction false} RowsNeedEnqueue(body: seq<Event>)
    ensures RowsLeft(body) > 0 ==> EnqueuedAny(body)
  {
    if body != [] {
      RowsNeedEnqueue(body[..|body| - 1]);
    }
  }

  /**
   * "The worker is only woken for rows that were committed" holds of a transaction exactly when it
   * did not roll back everything it had enqueued: no callback runs for a savepoint.
   */
  lemma SignalsForRowsExactlyWhen(t: Transaction)
    requires Body(t.body) && t.commits
    ensures (SignalCount(false, EventsOf(t)) == 1 <==> RowsLeft(t.body) > 0)
            <==> !EnqueuedAny(t.body) || RowsLeft(t.body) > 0
  {
    OneTransaction(t);
    RowsNeedEnqueue(t.body);
  }

  /** SAVEPOINT, enqueue, ROLLBACK TO, COMMIT: nothing is queued, and the worker is woken. */
  lemma SavepointSignals()
    ensures var t := Transaction([Enqueued, RolledBackTo(0)], true);
            Body(t.body) && RowsLeft(t.body) == 0 && SignalCount(false, EventsOf(t)) == 1
  {
    var t := Transaction([Enqueued, RolledBackTo(0)], true);
    assert t.body[..1] == [Enqueued] && t.body[..1][..0] == [];
    OneTransaction(t);
  }
}
