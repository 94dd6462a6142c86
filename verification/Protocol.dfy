/**
 * The asynchronous call queue as a protocol: client backends that enqueue, commit and run the
 * commit callback, one background worker that waits, claims the flag and drains, and the tables
 * and shared memory between them. One step is one action that other processes can observe.
 *
 * What PostgreSQL and its process library provide is stated as steps: a commit makes rows visible
 * before the callback runs; sequence values are never handed out twice; the writes of the open
 * worker transaction are invisible until it commits and are gone when the worker dies; each of its
 * statements reads what is committed when the statement begins (READ COMMITTED); waiting on the
 * latch clears it before it returns. Three things they may or may not provide are the fields of
 * `Environment`.
 */
module Protocol {
  import opened Prelude
  import opened CallTypes
  import opened Batches

  datatype Environment = Environment(
    latchSetAtPublish: bool,  // a worker's process latch is set when it publishes the pointer to it
    sigtermStays: bool,       // asking whether SIGTERM was received does not forget that it was
    latchKept: bool)          // nothing but the wait of the outer loop clears the worker's latch

  // ----- Client backends -----

  datatype Phase =
    | Working                         // in a transaction, or between transactions
    | Committed                       // rows are visible, the commit callback is about to run
    | Signalling                      // the callback took the guard, the flag is not stored yet
    | Signalled                       // flag stored, latch pointer not read yet
    | Holding(target: Option<nat>)    // pointer read (the worker incarnation it belongs to)

  datatype Backend = Backend(phase: Phase, guard: bool, rows: set<nat>)

  const FRESH := Backend(Working, false, {})

  // ----- The worker -----

  datatype WorkerPc =
    | Dead
    | Starting                                          // before on_proc_exit
    | Hooked                                            // hook registered, latch not published
    | Waiting                                           // in wait_latch
    | Woken                                             // latch was set and is reset again
    | Draining                                          // top of the inner loop
    | Opened(start: int)                                // transaction open, dequeue not run
    | Drained(start: int)                               // dequeue found nothing, not committed
    | Calling(start: int, taken: set<nat>)              // rows deleted, calls in flight
    | Persisted(start: int, outcomes: map<nat, Outcome>) // results inserted, not committed
    | Exiting                                           // transaction gone, exit hook not run
    | Unpublishing                                      // hook stored the flag, pointer still there

  datatype Stored = Stored(outcome: Outcome, created: int)

  datatype State = State(
    nextId: nat,                  // the bigserial sequence: ids 1 .. nextId - 1 were handed out
    queue: set<nat>,              // grpc.call_queue as other sessions see it
    results: map<nat, Stored>,    // grpc._call_result as other sessions see it
    rolledBack: set<nat>,         // history: ids whose enqueue was rolled back
    expired: set<nat>,            // history: ids whose result was deleted by a cleanup
    backends: map<nat, Backend>,
    flag: bool,
    pointer: Option<nat>,
    pc: WorkerPc,
    incarnation: nat,
    latch: bool,
    sigterm: bool,
    batch: nat,
    ttl: int,
    clock: int)

  datatype Step =
    // client backends
    | Enqueue(b: nat)
    | RollbackTo(b: nat, kept: set<nat>)      // a subtransaction is rolled back
    | Commit(b: nat)
    | Abort(b: nat)
    | SwapGuard(b: nat)
    | StoreFlag(b: nat)
    | ReadPointer(b: nat)
    | SetLatch(b: nat)
    // surroundings
    | Tick(d: nat)
    | Nudge                                   // the latch is set for a reason of its own
    | Sigterm
    | Crash
    // the worker
    | Start
    | RegisterHook
    | Publish
    | Wait
    | Reload(batch: nat, ttl: int)
    | ClaimFlag
    | Break                                   // SIGTERM seen at the top of the inner loop
    | Open
    | Dequeue(taken: set<nat>)
    | Persist(outcomes: map<nat, Outcome>)
    | CommitBatch
    | CommitEmpty
    | LockWait                                // a statement of the open transaction waited for a lock
    | ExitStoreFlag
    | ExitClearPointer

  function At(s: State, b: nat): Backend {
    if b in s.backends then s.backends[b] else FRESH
  }

  lemma SetAgain(s: State, b: nat, x: Backend, y: Backend)
    ensures Set(Set(s, b, x), b, y) == Set(s, b, y)
  {
    assert s.backends[b := x][b := y] == s.backends[b := y];
  }

  function Set(s: State, b: nat, backend: Backend): State {
    s.(backends := s.backends[b := backend])
  }

  /** The worker process exists and has installed its signal handlers and its exit hook. */
  predicate Live(pc: WorkerPc) {
    !pc.Dead? && !pc.Starting? && !pc.Exiting? && !pc.Unpublishing?
  }

  /** A worker transaction is open. */
  predicate InTransaction(pc: WorkerPc) {
    pc.Opened? || pc.Drained? || pc.Calling? || pc.Persisted?
  }

  function StoredAt(outcomes: map<nat, Outcome>, start: int): map<nat, Stored> {
    map id | id in outcomes :: Stored(outcomes[id], start)
  }

  /** What `DELETE ... WHERE created < cutoff` leaves. */
  function Keep(results: map<nat, Stored>, cutoff: int): map<nat, Stored> {
    map id | id in results && results[id].created >= cutoff :: results[id]
  }

  /** The cleanup that ends a worker transaction begun at `start`. */
  function Clean(s: State, results: map<nat, Stored>, start: int): State {
    var kept := Keep(results, start - s.ttl);
    s.(results := kept, expired := s.expired + (results.Keys - kept.Keys))
  }

  ghost predicate Enabled(s: State, step: Step) {
    match step
    case Enqueue(b) => At(s, b).phase.Working?
    case RollbackTo(b, kept) => At(s, b).phase.Working? && kept <= At(s, b).rows
    case Commit(b) => At(s, b).phase.Working?
    case Abort(b) => At(s, b).phase.Working?
    case SwapGuard(b) => At(s, b).phase.Committed?
    case StoreFlag(b) => At(s, b).phase.Signalling?
    case ReadPointer(b) => At(s, b).phase.Signalled?
    case SetLatch(b) => At(s, b).phase.Holding?
    case Tick(_) => true
    case Nudge => Live(s.pc)
    case Sigterm => Live(s.pc)
    case Crash => Live(s.pc) || s.pc.Starting?
    case Start => s.pc.Dead?
    case RegisterHook => s.pc.Starting?
    case Publish => s.pc.Hooked?
    case Wait => s.pc.Waiting? && s.latch
    case Reload(batch, _) => s.pc.Woken? && batch >= 1
    case ClaimFlag => s.pc.Woken?
    case Break => s.pc.Draining? && s.sigterm
    case Open => s.pc.Draining? && !s.sigterm
    case Dequeue(taken) => s.pc.Opened? && IsBatch(s.queue, s.batch, taken)
    case Persist(outcomes) => s.pc.Calling? && outcomes.Keys == s.pc.taken && outcomes.Keys !! s.results.Keys
    case CommitBatch => s.pc.Persisted?
    case CommitEmpty => s.pc.Drained?
    case LockWait => InTransaction(s.pc)
    case ExitStoreFlag => s.pc.Exiting?
    case ExitClearPointer => s.pc.Unpublishing?
  }

  ghost function Apply(e: Environment, s: State, step: Step): State
    requires Enabled(s, step)
  {
    match step
    // grpc_call_async: insert the row, raise the guard (src/lib.rs:74-98)
    case Enqueue(b) =>
      Set(s.(nextId := s.nextId + 1), b, At(s, b).(rows := At(s, b).rows + {s.nextId}, guard := true))
    // no transaction callback runs for a subtransaction
    case RollbackTo(b, kept) =>
      Set(s.(rolledBack := s.rolledBack + (At(s, b).rows - kept)), b, At(s, b).(rows := kept))
    case Commit(b) =>
      Set(s.(queue := s.queue + At(s, b).rows), b, At(s, b).(phase := Committed, rows := {}))
    case Abort(b) =>
      Set(s.(rolledBack := s.rolledBack + At(s, b).rows), b, FRESH)
    // wake_worker_on_commit (src/lib.rs:115-118), one shared-memory access at a time
    case SwapGuard(b) =>
      Set(s, b, At(s, b).(phase := if At(s, b).guard then Signalling else Working, guard := false))
    case StoreFlag(b) => Set(s.(flag := true), b, At(s, b).(phase := Signalled))
    case ReadPointer(b) => Set(s, b, At(s, b).(phase := Holding(s.pointer)))
    case SetLatch(b) =>
      Set(s.(latch := s.latch || At(s, b).phase.target == Some(s.incarnation)), b, At(s, b).(phase := Working))
    case Tick(d) => s.(clock := s.clock + d)
    case Nudge => s.(latch := true)
    case Sigterm => s.(sigterm := true, latch := true)
    case Crash => s.(pc := if s.pc.Starting? then Dead else Exiting)
    // grpc_async_worker, up to the wait loop (src/worker.rs:18-34)
    case Start =>
      s.(pc := Starting, incarnation := s.incarnation + 1, pointer := None, latch := false, sigterm := false)
    case RegisterHook => s.(pc := Hooked)
    case Publish => s.(pc := Waiting, pointer := Some(s.incarnation), latch := s.latch || e.latchSetAtPublish)
    // the wait loop (src/worker.rs:41-54)
    case Wait => s.(latch := false, pc := if s.sigterm then Exiting else Woken)
    case Reload(batch, ttl) => s.(batch := batch, ttl := ttl)
    case ClaimFlag => s.(flag := false, pc := if s.flag then Draining else Waiting)
    // the drain loop (src/worker.rs:58-114)
    case Break => s.(pc := Waiting, sigterm := e.sigtermStays)
    case Open => s.(pc := Opened(s.clock))
    case Dequeue(taken) => s.(pc := if taken == {} then Drained(s.pc.start) else Calling(s.pc.start, taken))
    case Persist(outcomes) => s.(pc := Persisted(s.pc.start, outcomes))
    case CommitBatch =>
      Clean(s.(queue := s.queue - s.pc.outcomes.Keys, pc := Draining),
            s.results + StoredAt(s.pc.outcomes, s.pc.start), s.pc.start)
    case CommitEmpty => Clean(s.(pc := Waiting), s.results, s.pc.start)
    // PostgreSQL waits for a lock on the same process latch, and resets it
    case LockWait => s.(latch := s.latch && e.latchKept)
    // on_worker_exit (src/worker.rs:9-14)
    case ExitStoreFlag => s.(flag := true, pc := Unpublishing)
    case ExitClearPointer => s.(pointer := None, pc := Dead)
  }

  // ----- Runs -----

  ghost predicate Run(e: Environment, s: State, steps: seq<Step>)
    decreases |steps|
  {
    steps == [] || (Enabled(s, steps[0]) && Run(e, Apply(e, s, steps[0]), steps[1..]))
  }

  ghost function After(e: Environment, s: State, steps: seq<Step>): State
    requires Run(e, s, steps)
    decreases |steps|
  {
    if steps == [] then s else After(e, Apply(e, s, steps[0]), steps[1..])
  }

  lemma {:induction false} RunConcat(e: Environment, s: State, a: seq<Step>, b: seq<Step>)
    requires Run(e, s, a) && Run(e, After(e, s, a), b)
    ensures Run(e, s, a + b) && After(e, s, a + b) == After(e, After(e, s, a), b)
    decreases |a|
  {
    if a == [] {
      assert a + b == b;
    } else {
      assert (a + b)[0] == a[0] && (a + b)[1..] == a[1..] + b;
      RunConcat(e, Apply(e, s, a[0]), a[1..], b);
    }
  }

  ghost predicate Reaches(e: Environment, s: State, t: State) {
    exists steps :: Run(e, s, steps) && After(e, s, steps) == t
  }

  lemma ReachesSelf(e: Environment, s: State)
    ensures Reaches(e, s, s)
  {
    assert Run(e, s, []) && After(e, s, []) == s;
  }

  lemma ReachesThrough(e: Environment, s: State, t: State, u: State)
    requires Reaches(e, s, t) && Reaches(e, t, u)
    ensures Reaches(e, s, u)
  {
    var a :| Run(e, s, a) && After(e, s, a) == t;
    var b :| Run(e, t, b) && After(e, t, b) == u;
    RunConcat(e, s, a, b);
  }

  /** Takes one more step at the end of a run. */
  lemma Then(e: Environment, s: State, t: State, step: Step) returns (t': State)
    requires Reaches(e, s, t) && Enabled(t, step)
    ensures t' == Apply(e, t, step) && Reaches(e, s, t')
  {
    t' := Apply(e, t, step);
    var steps :| Run(e, s, steps) && After(e, s, steps) == t;
    assert Run(e, t', []) && [step][1..] == [];
    RunConcat(e, s, steps, [step]);
  }

  // ----- Runs with some of the steps only -----

  datatype Regime =
    | KeepingTtl(floor: int)   // no reload on the way sets a time-to-live below this
    | Alone(b: nat)            // only the commit callback of one backend and the worker itself

  predicate Allows(r: Regime, step: Step) {
    match r
    case KeepingTtl(floor) => step.Reload? ==> step.ttl >= floor
    case Alone(b) => (
      match step
      case SwapGuard(x) => x == b
      case StoreFlag(x) => x == b
      case ReadPointer(x) => x == b
      case SetLatch(x) => x == b
      case Wait | ClaimFlag | Open | Dequeue(_) | Persist(_) | CommitBatch | CommitEmpty => true
      case _ => false)
  }

  ghost predicate Within(steps: seq<Step>, r: Regime) {
    forall step :: step in steps ==> Allows(r, step)
  }

  ghost predicate ReachesWithin(e: Environment, s: State, t: State, r: Regime) {
    exists steps :: Run(e, s, steps) && After(e, s, steps) == t && Within(steps, r)
  }

  lemma SelfWithin(e: Environment, s: State, r: Regime)
    ensures ReachesWithin(e, s, s, r)
  {
    assert Run(e, s, []) && After(e, s, []) == s && Within([], r);
  }

  lemma ThenWithin(e: Environment, s: State, t: State, step: Step, r: Regime) returns (t': State)
    requires ReachesWithin(e, s, t, r) && Enabled(t, step) && Allows(r, step)
    ensures t' == Apply(e, t, step) && ReachesWithin(e, s, t', r)
  {
    t' := Apply(e, t, step);
    var steps :| Run(e, s, steps) && After(e, s, steps) == t && Within(steps, r);
    assert Run(e, t', []) && [step][1..] == [];
    RunConcat(e, s, steps, [step]);
    assert Within(steps + [step], r);
  }

  /**
   * The server has just started: shared memory is new, no worker and no client transaction exists.
   * The tables, the sequence and the settings are whatever the last shutdown left.
   */
  ghost predicate ServerStart(s: State) {
    && s.nextId >= 1
    && s.backends == map[]
    && !s.flag
    && s.pointer == None
    && s.pc == Dead
    && !s.latch
    && !s.sigterm
    && s.batch >= 1
  }
}
