/** The two tables and the operations on them (src/queue.rs, src/async_schema.rs). */
module Queue {
  import opened Prelude
  import opened Json
  import opened CallTypes
  import opened Batches

  /** A row of grpc._call_result. */
  datatype ResultRow = ResultRow(status: string, response: Option<Value>, errorMsg: Option<string>, created: int)

  /** What UNNEST over the four arrays yields: an array that is too short is padded with NULL. */
  datatype NewRow = NewRow(id: Option<nat>, status: Option<string>, response: Option<Value>, errorMsg: Option<string>)

  function Nth<T>(s: seq<T>, i: nat): Option<T> {
    if i < |s| then Some(s[i]) else None
  }

  function Flat<T>(o: Option<Option<T>>): Option<T> {
    if o.Some? then o.value else None
  }

  function Max(a: nat, b: nat): nat {
    if a < b then b else a
  }

  function Unnest(ids: seq<nat>, statuses: seq<string>, responses: seq<Option<Value>>, errors: seq<Option<string>>)
    : seq<NewRow>
  {
    seq(Max(Max(|ids|, |statuses|), Max(|responses|, |errors|)), (i: nat) =>
      NewRow(Nth(ids, i), Nth(statuses, i), Flat(Nth(responses, i)), Flat(Nth(errors, i))))
  }

  /** INSERT of rows one after the other: a NULL, an unknown status or a taken key fails it all. */
  function Insert(table: map<nat, ResultRow>, rows: seq<NewRow>, now: int): Option<map<nat, ResultRow>> {
    if rows == [] then Some(table)
    else
      var row := rows[|rows| - 1];
      match Insert(table, rows[..|rows| - 1], now)
      case None => None
      case Some(t) =>
        if row.id.None? || row.status.None? || row.status.value !in {"SUCCESS", "ERROR"} || row.id.value in t then None
        else Some(t[row.id.value := ResultRow(row.status.value, row.response, row.errorMsg, now)])
  }

  /** The row that one call result is stored as. */
  function Row(result: CallResult): NewRow {
    match result.outcome
    case Success(v) => NewRow(Some(result.id), Some("SUCCESS"), Some(v), None)
    case Error(msg) => NewRow(Some(result.id), Some("ERROR"), None, Some(msg))
  }

  function Rows(results: seq<CallResult>): seq<NewRow> {
    seq(|results|, i requires 0 <= i < |results| => Row(results[i]))
  }

  /** `lookup` on one snapshot of the tables. */
  function Lookup(queue: map<nat, QueueRow>, results: map<nat, ResultRow>, id: nat): LookupStatus {
    if id in results then
      var row := results[id];
      if row.status == "SUCCESS" then Succeeded(if row.response.Some? then row.response.value else Null)
      else Failed(if row.errorMsg.Some? then row.errorMsg.value else "")
    else if id in queue then Pending
    else Failed(NOT_FOUND)
  }

  /** How a finished call must read. */
  function StatusOf(outcome: Outcome): LookupStatus {
    match outcome
    case Success(v) => Succeeded(v)
    case Error(msg) => Failed(msg)
  }

  predicate DistinctIds(results: seq<CallResult>) {
    forall i, j :: 0 <= i < j < |results| ==> results[i].id != results[j].id
  }

  predicate AllNew(table: map<nat, ResultRow>, results: seq<CallResult>) {
    forall i :: 0 <= i < |results| ==> results[i].id !in table
  }

  function StoredRow(outcome: Outcome, now: int): ResultRow {
    match outcome
    case Success(v) => ResultRow("SUCCESS", Some(v), None, now)
    case Error(msg) => ResultRow("ERROR", None, Some(msg), now)
  }

  // ----- Storing and looking up again -----

  function ResultIds(results: seq<CallResult>): set<nat> {
    set i | 0 <= i < |results| :: results[i].id
  }

  lemma ResultIdsSnoc(results: seq<CallResult>)
    requires results != []
    ensures var init := results[..|results| - 1];
            && ResultIds(results) == ResultIds(init) + {results[|results| - 1].id}
            && Rows(results)[..|results| - 1] == Rows(init)
  {
    var init := results[..|results| - 1];
    forall id | id in ResultIds(init) ensures id in ResultIds(results) {
      var i :| 0 <= i < |init| && init[i].id == id;
      assert results[i].id == id;
    }
    forall id | id in ResultIds(results) && id != results[|results| - 1].id ensures id in ResultIds(init) {
      var i :| 0 <= i < |results| && results[i].id == id;
      assert init[i].id == id;
    }
  }

  /** The table grows by the batch's ids and keeps what it had. */
  lemma {:induction false} InsertGrows(table: map<nat, ResultRow>, results: seq<CallResult>, now: int)
    ensures Insert(table, Rows(results), now).Some? ==>
              var t := Insert(table, Rows(results), now).value;
              t.Keys == table.Keys + ResultIds(results) && forall id :: id in table ==> t[id] == table[id]
  {
    if results != [] {
      InsertGrows(table, results[..|results| - 1], now);
      ResultIdsSnoc(results);
    }
  }

  predicate DistinctNew(table: map<nat, ResultRow>, results: seq<CallResult>) {
    DistinctIds(results) && AllNew(table, results)
  }

  lemma DistinctNewSnoc(table: map<nat, ResultRow>, results: seq<CallResult>)
    requires results != []
    ensures var init, last := results[..|results| - 1], results[|results| - 1];
            DistinctNew(table, results)
            <==> DistinctNew(table, init) && last.id !in ResultIds(init) && last.id !in table
  {
    var init, last := results[..|results| - 1], results[|results| - 1];
    assert forall i :: 0 <= i < |init| ==> results[i] == init[i];
    if DistinctNew(table, results) {
      forall i | 0 <= i < |init| ensures init[i].id != last.id {
        assert results[i].id != results[|results| - 1].id;
      }
    }
    if DistinctNew(table, init) && last.id !in ResultIds(init) && last.id !in table {
      assert forall i :: 0 <= i < |init| ==> init[i].id in ResultIds(init);
      assert DistinctIds(results);
    }
  }

  /** The INSERT goes through exactly when the ids are distinct and new. */
  lemma {:induction false} InsertSucceeds(table: map<nat, ResultRow>, results: seq<CallResult>, now: int)
    ensures Insert(table, Rows(results), now).Some? <==> DistinctNew(table, results)
  {
    if results != [] {
      InsertSucceeds(table, results[..|results| - 1], now);
      InsertGrows(table, results[..|results| - 1], now);
      ResultIdsSnoc(results);
      DistinctNewSnoc(table, results);
    }
  }

  /** And then each call's row is its own outcome, whatever its position in the four arrays. */
  lemma {:induction false} InsertStores(table: map<nat, ResultRow>, results: seq<CallResult>, now: int, i: nat)
    requires Insert(table, Rows(results), now).Some? && i < |results|
    ensures var t := Insert(table, Rows(results), now).value;
            results[i].id in t && t[results[i].id] == StoredRow(results[i].outcome, now)
  {
    var init := results[..|results| - 1];
    ResultIdsSnoc(results);
    if i < |results| - 1 {
      InsertStores(table, init, now, i);
      assert init[i] == results[i];
    }
  }

  /** After storing a batch, each of its calls reads back as its outcome and nothing else changed. */
  lemma StoreThenLookup(queue: map<nat, QueueRow>, table: map<nat, ResultRow>, results: seq<CallResult>, now: int)
    requires DistinctNew(table, results)
    ensures Insert(table, Rows(results), now).Some?
    ensures var t := Insert(table, Rows(results), now).value;
            && (forall i :: 0 <= i < |results| ==>
                  && results[i].id in t && t[results[i].id].created == now
                  && match results[i].outcome
                     case Success(v) =>
                       && Lookup(queue, t, results[i].id) == Succeeded(v)
                       && t[results[i].id].status == "SUCCESS"
                       && t[results[i].id].response == Some(v) && t[results[i].id].errorMsg == None
                     case Error(msg) =>
                       && Lookup(queue, t, results[i].id) == Failed(msg)
                       && t[results[i].id].status == "ERROR"
                       && t[results[i].id].response == None && t[results[i].id].errorMsg == Some(msg))
            && (forall id :: (forall i :: 0 <= i < |results| ==> results[i].id != id) ==>
                  Lookup(queue, t, id) == Lookup(queue, table, id))
  {
    InsertSucceeds(table, results, now);
    InsertGrows(table, results, now);
    forall i | 0 <= i < |results| {
      InsertStores(table, results, now, i);
    }
  }

  /** A result that is not there is pending as long as the call is queued, and not found otherwise. */
  lemma LookupWithoutResult(queue: map<nat, QueueRow>, table: map<nat, ResultRow>, id: nat)
    requires id !in table
    ensures Lookup(queue, table, id)
         == if id in queue then Pending else Failed("not found — result may have expired")
  {
  }

  // ----- The database as the worker's session sees it -----

  predicate DistinctRows(rows: seq<QueueRow>) {
    forall i, j :: 0 <= i < j < |rows| ==> rows[i].id != rows[j].id
  }

  function IdsOf(rows: seq<QueueRow>): set<nat> {
    set i | 0 <= i < |rows| :: rows[i].id
  }

  /** `rows` are the first rows of `before`, in id order, and `left` is the rest of it. */
  ghost predicate Taken(before: map<nat, QueueRow>, rows: seq<QueueRow>, left: map<nat, QueueRow>) {
    && DistinctRows(rows) && |rows| == |IdsOf(rows)|
    && IdsOf(rows) <= before.Keys
    && left == before - IdsOf(rows)
    && (forall i :: 0 <= i < |rows| ==> rows[i].id in before && rows[i] == before[rows[i].id])
    && (forall x, y :: x in IdsOf(rows) && y in left ==> x < y)
  }

  lemma TakeOne(before: map<nat, QueueRow>, rows: seq<QueueRow>, left: map<nat, QueueRow>, next: nat)
    requires Taken(before, rows, left) && (forall id :: id in before ==> before[id].id == id)
    requires next in left && forall other :: other in left ==> next <= other
    ensures Taken(before, rows + [left[next]], left - {next})
  {
    Extend(rows, left[next]);
    var longer := rows + [left[next]];
    assert IdsOf(longer) == IdsOf(rows) + {next};
    assert |IdsOf(rows) + {next}| == |IdsOf(rows)| + 1;
    assert left - {next} == before - (IdsOf(rows) + {next});
  }

  lemma TakenIsBatch(before: map<nat, QueueRow>, rows: seq<QueueRow>, left: map<nat, QueueRow>, size: nat)
    requires Taken(before, rows, left) && |rows| <= size && (|rows| == size || left == map[])
    ensures IsBatch(before.Keys, size, IdsOf(rows))
  {
    Complement(before.Keys, IdsOf(rows));
    assert left.Keys == before.Keys - IdsOf(rows);
    forall x, y | x in IdsOf(rows) && y in before.Keys && y !in IdsOf(rows) ensures x < y {
      assert y in left;
    }
  }

  class Database {
    var queue: map<nat, QueueRow>
    var results: map<nat, ResultRow>
    var clock: int
    var now: int      // start of the current transaction

    constructor ()
      ensures Valid() && queue == map[] && results == map[]
    {
      queue, results, clock, now := map[], map[], 0, 0;
    }

    ghost predicate Valid()
      reads this
    {
      && (forall id :: id in queue ==> queue[id].id == id)
      && now <= clock
    }

    method BeginTransaction()
      requires Valid()
      modifies `now
      ensures Valid() && now == clock
    {
      now := clock;
    }

    /** Some time passes. */
    method Elapse() returns (d: nat)
      requires Valid()
      modifies `clock
      ensures Valid() && clock == old(clock) + d
    {
      var passed: int := *;
      d := if passed > 0 then passed else 0;
      clock := clock + d;
    }

    /** DELETE ... RETURNING of the smallest `size` ids, each row as it was queued. */
    method Dequeue(size: nat) returns (rows: seq<QueueRow>)
      requires Valid()
      modifies `queue
      ensures Valid()
      ensures DistinctRows(rows) && IsBatch(old(queue).Keys, size, IdsOf(rows))
      ensures |rows| == |IdsOf(rows)|
      ensures forall i :: 0 <= i < |rows| ==> rows[i].id in old(queue) && rows[i] == old(queue)[rows[i].id]
      ensures queue == old(queue) - IdsOf(rows)
    {
      rows := [];
      var before, left := queue, queue;
      while |rows| < size && left != map[]
        invariant Taken(before, rows, left) && |rows| <= size
        decreases size - |rows|
      {
        var next := First(left);
        TakeOne(before, rows, left, next);
        rows := rows + [left[next]];
        left := left - {next};
      }
      TakenIsBatch(before, rows, left, size);
      queue := left;
    }

    /** `insert_results`: four parallel arrays, one INSERT. */
    method InsertResults(batch: seq<CallResult>) returns (ok: bool)
      requires Valid()
      modifies `results
      ensures Valid()
      ensures ok <==> DistinctNew(old(results), batch)
      ensures if ok then Insert(old(results), Rows(batch), now) == Some(results) else results == old(results)
    {
      InsertSucceeds(results, batch, now);
      if batch == [] {
        return true;
      }
      var ids: seq<nat>, statuses: seq<string> := [], [];
      var responses: seq<Option<Value>>, errors: seq<Option<string>> := [], [];
      for i := 0 to |batch|
        invariant |ids| == |statuses| == |responses| == |errors| == i
        invariant Unnest(ids, statuses, responses, errors) == Rows(batch[..i])
      {
        ghost var before := Unnest(ids, statuses, responses, errors);
        ids := ids + [batch[i].id];
        match batch[i].outcome {
          case Success(v) =>
            statuses := statuses + ["SUCCESS"];
            responses := responses + [Some(v)];
            errors := errors + [None];
          case Error(msg) =>
            statuses := statuses + ["ERROR"];
            responses := responses + [None];
            errors := errors + [Some(msg)];
        }
        assert Unnest(ids, statuses, responses, errors) == before + [Row(batch[i])];
        assert Rows(batch[..i + 1]) == Rows(batch[..i]) + [Row(batch[i])];
      }
      assert batch[..|batch|] == batch;
      var inserted := Insert(results, Unnest(ids, statuses, responses, errors), now);
      if inserted.None? {
        return false;
      }
      results := inserted.value;
      return true;
    }

    /** Deletes what is older than the TTL and touches nothing else. */
    method TtlCleanup(ttl: int)
      requires Valid()
      modifies `results
      ensures Valid()
      ensures forall id :: id in results ==> id in old(results) && results[id] == old(results)[id]
      ensures forall id :: id in old(results) && id !in results ==> now - old(results)[id].created > ttl
      ensures forall id :: id in results ==> now - results[id].created <= ttl
    {
      results := Young(results, now - ttl);
    }
  }

  /** The first row in id order. */
  method First(queue: map<nat, QueueRow>) returns (id: nat)
    requires queue != map[]
    ensures id in queue && forall other :: other in queue ==> id <= other
  {
    ghost var least := Least(queue.Keys);
    id :| id in queue.Keys && forall other :: other in queue.Keys ==> id <= other;
  }

  function Young(results: map<nat, ResultRow>, cutoff: int): map<nat, ResultRow> {
    map id | id in results && results[id].created >= cutoff :: results[id]
  }

  /** A table that keeps what is young, and no more, as it was. */
  lemma YoungIs(before: map<nat, ResultRow>, cutoff: int, after: map<nat, ResultRow>)
    requires forall id :: id in after ==> id in before && after[id] == before[id] && after[id].created >= cutoff
    requires forall id :: id in before && id !in after ==> before[id].created < cutoff
    ensures after == Young(before, cutoff)
  {
  }

  lemma Extend(rows: seq<QueueRow>, row: QueueRow)
    requires row.id !in IdsOf(rows)
    ensures IdsOf(rows + [row]) == IdsOf(rows) + {row.id}
    ensures DistinctRows(rows) ==> DistinctRows(rows + [row])
  {
    var longer := rows + [row];
    forall id | id in IdsOf(rows) ensures id in IdsOf(longer) {
      var i :| 0 <= i < |rows| && rows[i].id == id;
      assert longer[i].id == id;
    }
    assert longer[|rows|].id == row.id;
    forall i | 0 <= i < |rows| ensures longer[i].id != row.id {
      assert longer[i].id in IdsOf(rows);
    }
  }
}
