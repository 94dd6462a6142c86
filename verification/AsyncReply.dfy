/**
 * From the enqueue to the lookup: what a user of `grpc_call_async` reads after a turn of the worker
 * is what `grpc_call` would have replied.
 */
module AsyncReply {
  import opened Blocks
  import opened CallAsync
  import opened CallTypes
  import opened JoinLoop
  import opened Queue
  import opened Worker
  import opened WorkerLoop
  import opened Json
  import D = DrainRun
  import R = Replies
  import Session

  /** For each call: the world it meets, what the worker remembers by then, and whether its task panics. */
  datatype Course = Course(world: nat -> World, memory: nat -> Memory, panics: nat -> bool)

  /** The tasks that the join loop runs: `call_async_row` for every row. */
  function TaskOf(c: Course, row: QueueRow): (fate: Fate)
    ensures fate.Yields? ==> fate.result.id == row.id
  {
    if c.panics(row.id) then Panics else Yields(CallAsyncRow(c.world(row.id), c.memory(row.id), row))
  }

  function TasksOf(c: Course): Fates {
    var f := (row: QueueRow) => TaskOf(c, row);
    assert forall row :: f(row) == TaskOf(c, row);
    f
  }

  /** What the synchronous call replies in that world, as a lookup shows it. */
  function Expected(c: Course, backend: Memory, id: nat, input: Input): LookupStatus {
    if c.panics(id) then Failed(PANICKED)
    else StatusOf(AsOutcome(c.world(id), SyncReply(c.world(id), backend, input)))
  }

  /** The row was enqueued from this input, and for its call both processes remember the same. */
  predicate EnqueuedFrom(row: QueueRow, input: Input, backend: Memory, worker: Memory) {
    Enqueue(row.id, input).Ok? && Enqueue(row.id, input).value == row && Alike(backend, worker, input)
  }

  lemma RowAnswers(c: Course, backend: Memory, row: QueueRow, input: Input)
    requires EnqueuedFrom(row, input, backend, c.memory(row.id))
    ensures StatusOf(Recorded(TasksOf(c)(row))) == Expected(c, backend, row.id, input)
  {
    if !c.panics(row.id) {
      SameCall(c.world(row.id), c.memory(row.id), row.id, input);
      AlikeDecides(c.world(row.id), backend, c.memory(row.id), input);
    }
  }

  /** All the rows of a queue, each from its own input. */
  ghost predicate AllEnqueued(queue: map<nat, QueueRow>, inputs: map<nat, Input>, backend: Memory, c: Course) {
    forall id :: id in queue ==>
      id in inputs && queue[id].id == id && EnqueuedFrom(queue[id], inputs[id], backend, c.memory(id))
  }

  /** After a drain within the TTL every call reads as the synchronous reply to its input. */
  lemma DrainAnswers(t: Tables, txns: seq<Txn>, size: nat, ttl: int, c: Course,
                     inputs: map<nat, Input>, backend: Memory)
    requires size >= 1 && InTurn(t.queue.Keys, txns, size) && StopsWhenEmpty(txns)
    requires D.TotalTime(txns) <= ttl && AllEnqueued(t.queue, inputs, backend, c)
    ensures var u := AfterAll(t, txns, ttl, TasksOf(c));
            forall id :: id in t.queue ==> Lookup(u.queue, u.results, id) == Expected(c, backend, id, inputs[id])
  {
    D.OneResultPerRow(t, txns, size, ttl, TasksOf(c));
    forall id | id in t.queue {
      RowAnswers(c, backend, t.queue[id], inputs[id]);
    }
  }

  /**
   * Said of the input alone: the call reads as `v` exactly when its task did not panic and the
   * server, asked as the input says, answered `v`.
   */
  lemma ReadsAsAnswered(t: Tables, txns: seq<Txn>, size: nat, ttl: int, c: Course, input: Input, id: nat, v: Value)
    requires size >= 1 && InTurn(t.queue.Keys, txns, size) && StopsWhenEmpty(txns) && D.TotalTime(txns) <= ttl
    requires id in t.queue && Enqueue(id, input).Ok? && t.queue[id] == Enqueue(id, input).value
    ensures var u := AfterAll(t, txns, ttl, TasksOf(c));
            Lookup(u.queue, u.results, id) == Succeeded(v)
            <==> !c.panics(id) && R.Completes(c.world(id), R.AskedOf(c.memory(id), input), v)
  {
    D.OneResultPerRow(t, txns, size, ttl, TasksOf(c));
    R.RowReplies(c.world(id), c.memory(id), id, input, v);
    assert TasksOf(c)(t.queue[id]) == TaskOf(c, t.queue[id]);
  }

  /** The same of the worker's turn, run on the tables. */
  method Serve(shared: Session.SharedMemory, db: Database, size: nat, ttl: int, c: Course,
               ghost inputs: map<nat, Input>, ghost backend: Memory)
    returns (claimed: bool)
    requires db.Valid() && size >= 1 && Disjoint(Now(db)) && AllEnqueued(db.queue, inputs, backend, c)
    modifies shared`shouldWake, db
    ensures db.Valid() && claimed == old(shared.shouldWake)
    ensures claimed && db.clock - old(db.clock) <= ttl ==>
              forall id :: id in old(db.queue) ==>
                Lookup(db.queue, db.results, id) == Expected(c, backend, id, inputs[id])
  {
    ghost var before := db.queue;
    var txns;
    claimed, txns := Turn(shared, db, size, ttl, TasksOf(c));
    forall id | id in before {
      RowAnswers(c, backend, before[id], inputs[id]);
    }
  }
}
