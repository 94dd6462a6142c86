/** One batch of calls run concurrently (src/worker.rs:82-104). */
module JoinLoop {
  import opened Prelude
  import opened CallTypes
  import opened Queue

  /** What `join_next_with_id` yields: a finished task's result, or a task that panicked. */
  datatype Joined = Finished(task: nat, result: CallResult) | Panicked(task: nat)

  /** What becomes of one task: it panics, or it returns the result of `call_async_row`. */
  datatype Fate = Panics | Yields(result: CallResult)

  /** What becomes of each row's task, as far as the join loop relies on it: a result has the row's id. */
  type Fates = f: QueueRow -> Fate | forall row :: f(row).Yields? ==> f(row).result.id == row.id
    witness row => Panics

  /** What must be recorded for a call with that fate. */
  function Recorded(fate: Fate): Outcome {
    match fate
    case Panics => Error(PANICKED)
    case Yields(result) => result.outcome
  }

  /** And what its result must be. */
  function ResultFor(row: QueueRow, fates: Fates): CallResult {
    CallResult(row.id, Recorded(fates(row)))
  }

  function PendingIds(running: map<nat, QueueRow>): set<nat> {
    set task | task in running :: running[task].id
  }

  predicate Injective(running: map<nat, QueueRow>) {
    forall t, u :: t in running && u in running && running[t].id == running[u].id ==> t == u
  }

  lemma SpawnOne(running: map<nat, QueueRow>, task: nat, row: QueueRow)
    requires Injective(running) && task !in running && row.id !in PendingIds(running)
    ensures Injective(running[task := row])
    ensures PendingIds(running[task := row]) == PendingIds(running) + {row.id}
  {
    var more := running[task := row];
    assert forall t :: t in running ==> running[t].id in PendingIds(running);
    forall id | id in PendingIds(running) ensures id in PendingIds(more) {
      var t :| t in running && running[t].id == id;
      assert t in more && more[t].id == id;
    }
    assert task in more && more[task].id == row.id;
  }

  lemma JoinOne(running: map<nat, QueueRow>, task: nat)
    requires Injective(running) && task in running
    ensures Injective(running - {task})
    ensures PendingIds(running - {task}) == PendingIds(running) - {running[task].id}
  {
    var fewer := running - {task};
    forall id | id in PendingIds(running) && id != running[task].id ensures id in PendingIds(fewer) {
      var t :| t in running && running[t].id == id;
      assert t in fewer && fewer[t].id == id;
    }
  }

  /** tokio's `JoinSet`: tasks complete in any order, and any of them may panic. */
  class JoinSet {
    var running: map<nat, QueueRow>
    var next: nat

    ghost predicate Valid()
      reads this
    {
      forall task :: task in running ==> task < next
    }

    constructor ()
      ensures Valid() && running == map[]
    {
      running, next := map[], 0;
    }

    method Spawn(row: QueueRow) returns (task: nat)
      requires Valid()
      modifies this
      ensures Valid() && task !in old(running) && running == old(running)[task := row]
    {
      task := next;
      running := running[task := row];
      next := next + 1;
    }

    method JoinNext(fates: Fates) returns (joined: Option<Joined>)
      requires Valid()
      modifies this
      ensures Valid()
      ensures joined.None? <==> old(running) == map[]
      ensures joined.None? ==> running == map[]
      ensures joined.Some? ==>
                && joined.value.task in old(running)
                && running == old(running) - {joined.value.task}
                && match fates(old(running)[joined.value.task])
                   case Panics => joined.value.Panicked?
                   case Yields(result) => joined.value.Finished? && joined.value.result == result
    {
      if running == map[] {
        return None;
      }
      assert running.Keys != {};
      var task :| task in running.Keys;
      match fates(running[task]) {
        case Panics => joined := Some(Panicked(task));
        case Yields(result) => joined := Some(Finished(task, result));
      }
      running := running - {task};
    }
  }

  lemma ExtendResults(out: seq<CallResult>, result: CallResult)
    requires DistinctIds(out) && result.id !in ResultIds(out)
    ensures DistinctIds(out + [result]) && ResultIds(out + [result]) == ResultIds(out) + {result.id}
  {
    var longer := out + [result];
    assert longer[..|longer| - 1] == out;
    ResultIdsSnoc(longer);
    assert forall i :: 0 <= i < |out| ==> out[i].id in ResultIds(out);
  }

  /** The task-id map knows the row id of every running task. */
  predicate Knows(ids: map<nat, nat>, running: map<nat, QueueRow>) {
    forall task :: task in running ==> task in ids && ids[task] == running[task].id
  }

  /** Every result is that of one of these rows, also where the task panicked. */
  ghost predicate Truthful(out: seq<CallResult>, rows: set<QueueRow>, fates: Fates) {
    forall i :: 0 <= i < |out| ==> exists row :: row in rows && out[i] == ResultFor(row, fates)
  }

  function RowSet(rows: seq<QueueRow>): set<QueueRow> {
    set row | row in rows
  }

  /** These rows, and no others, are running. */
  ghost predicate Spawned(rows: seq<QueueRow>, running: map<nat, QueueRow>) {
    && Injective(running) && PendingIds(running) == IdsOf(rows) && |running| == |rows|
    && running.Values == RowSet(rows)
  }

  lemma ValuesGrow(running: map<nat, QueueRow>, task: nat, row: QueueRow)
    requires task !in running
    ensures running[task := row].Values == running.Values + {row}
  {
    var more := running[task := row];
    forall r | r in running.Values + {row} ensures r in more.Values {
      var t :| (t == task && r == row) || (t in running && running[t] == r);
      assert t in more && more[t] == r;
    }
  }

  lemma SpawnNext(rows: seq<QueueRow>, i: nat, running: map<nat, QueueRow>, task: nat)
    requires DistinctRows(rows) && i < |rows| && Spawned(rows[..i], running) && task !in running
    ensures Spawned(rows[..i + 1], running[task := rows[i]])
  {
    assert rows[..i + 1] == rows[..i] + [rows[i]];
    NotBefore(rows, i);
    Extend(rows[..i], rows[i]);
    SpawnOne(running, task, rows[i]);
    ValuesGrow(running, task, rows[i]);
  }

  /** The first loop: spawn every row and remember which task runs which id. */
  method SpawnAll(rows: seq<QueueRow>) returns (tasks: JoinSet, ids: map<nat, nat>)
    requires DistinctRows(rows)
    ensures fresh(tasks) && tasks.Valid()
    ensures Spawned(rows, tasks.running) && Knows(ids, tasks.running)
  {
    tasks := new JoinSet();
    ids := map[];
    for i := 0 to |rows|
      invariant fresh(tasks) && tasks.Valid()
      invariant Spawned(rows[..i], tasks.running) && Knows(ids, tasks.running)
    {
      ghost var before := tasks.running;
      var task := tasks.Spawn(rows[i]);
      SpawnNext(rows, i, before, task);
      ids := ids[task := rows[i].id];
    }
    assert rows[..|rows|] == rows;
  }

  /** What the body of the second loop makes of one joined task; 0 stands for an unknown one. */
  method ResultOf(joined: Joined, ids: map<nat, nat>) returns (result: CallResult)
    ensures joined.Finished? ==> result == joined.result
    ensures joined.Panicked? ==> result.outcome == Error("task panicked")
    ensures joined.Panicked? && joined.task in ids ==> result.id == ids[joined.task]
  {
    match joined {
      case Finished(_, r) =>
        result := r;
      case Panicked(task) =>
        var id := if task in ids then ids[task] else 0;
        result := CallResult(id, Error(PANICKED));
    }
  }

  /** Of the tasks in `start`, those that ended are in `out` and the rest are running. */
  ghost predicate Collected(start: map<nat, QueueRow>, running: map<nat, QueueRow>, out: seq<CallResult>) {
    && Injective(running)
    && (forall t :: t in running ==> t in start && running[t] == start[t])
    && DistinctIds(out) && |out| + |running| == |start|
    && ResultIds(out) !! PendingIds(running)
    && ResultIds(out) + PendingIds(running) == PendingIds(start)
  }

  lemma CollectOne(start: map<nat, QueueRow>, running: map<nat, QueueRow>, out: seq<CallResult>,
                   task: nat, result: CallResult)
    requires Collected(start, running, out) && task in running && result.id == running[task].id
    ensures Collected(start, running - {task}, out + [result])
  {
    JoinOne(running, task);
    assert running[task].id in PendingIds(running);
    ExtendResults(out, result);
  }

  lemma TruthfulOne(out: seq<CallResult>, start: map<nat, QueueRow>, task: nat, result: CallResult, fates: Fates)
    requires Truthful(out, start.Values, fates)
    requires task in start && result == ResultFor(start[task], fates)
    ensures Truthful(out + [result], start.Values, fates)
  {
    assert start[task] in start.Values;
    forall i | 0 <= i <= |out|
      ensures exists row :: row in start.Values && (out + [result])[i] == ResultFor(row, fates)
    {
      if i < |out| {
        var row :| row in start.Values && out[i] == ResultFor(row, fates);
      }
    }
  }

  /** The second loop: collect the tasks in whatever order they end. */
  method CollectAll(tasks: JoinSet, ids: map<nat, nat>, fates: Fates) returns (out: seq<CallResult>)
    requires tasks.Valid() && Injective(tasks.running) && Knows(ids, tasks.running)
    modifies tasks
    ensures DistinctIds(out) && |out| == |old(tasks.running)|
    ensures ResultIds(out) == PendingIds(old(tasks.running))
    ensures Truthful(out, old(tasks.running).Values, fates)
  {
    out := [];
    ghost var start, running := tasks.running, tasks.running;
    while true
      invariant tasks.Valid() && tasks.running == running
      invariant Knows(ids, running) && Collected(start, running, out)
      invariant Truthful(out, start.Values, fates)
      decreases |running|
    {
      var joined := tasks.JoinNext(fates);
      if joined.None? {
        break;
      }
      var task := joined.value.task;
      var result := ResultOf(joined.value, ids);
      TruthfulOne(out, start, task, result, fates);
      CollectOne(start, running, out, task, result);
      running := running - {task};
      out := out + [result];
    }
  }

  /**
   * The batch. For every completion order and every set of panics the results carry exactly the
   * ids of the rows, each once and with its own call's outcome; the fallback id is never used.
   */
  method RunBatch(rows: seq<QueueRow>, fates: Fates) returns (out: seq<CallResult>)
    requires DistinctRows(rows)
    ensures DistinctIds(out) && |out| == |rows|
    ensures ResultIds(out) == IdsOf(rows)
    ensures Truthful(out, RowSet(rows), fates)
  {
    var tasks, ids := SpawnAll(rows);
    out := CollectAll(tasks, ids, fates);
  }

  lemma NotBefore(rows: seq<QueueRow>, i: nat)
    requires DistinctRows(rows) && i < |rows|
    ensures rows[i].id !in IdsOf(rows[..i])
  {
  }
}
