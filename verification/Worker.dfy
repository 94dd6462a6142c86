/**
 * The worker's drain loop over the real tables (src/worker.rs:56-114), step by step a run of the
 * protocol, and what a drain without interference does.
 */
module Worker {
  import opened Prelude
  import opened Json
  import opened CallTypes
  import opened Batches
  import opened Blocks
  import opened Queue
  import opened JoinLoop
  import P = Protocol
  import L = Ledger

  // ----- The tables as the protocol sees them -----

  function OutcomeOf(row: ResultRow): Outcome {
    if row.status == "SUCCESS" then Success(if row.response.Some? then row.response.value else Null)
    else Error(if row.errorMsg.Some? then row.errorMsg.value else "")
  }

  function Abstract(results: map<nat, ResultRow>): map<nat, P.Stored> {
    map id | id in results :: P.Stored(OutcomeOf(results[id]), results[id].created)
  }

  ghost predicate Matches(queue: map<nat, QueueRow>, results: map<nat, ResultRow>, s: P.State) {
    queue.Keys == s.queue && Abstract(results) == s.results
  }

  /** `lookup` reads, in the tables, what the protocol says an observer sees. */
  lemma LookupIsObserve(queue: map<nat, QueueRow>, results: map<nat, ResultRow>, s: P.State, id: nat)
    requires Matches(queue, results, s)
    ensures Lookup(queue, results, id)
         == match L.Observe(s, id)
            case Done(outcome) => StatusOf(outcome)
            case InQueue => Pending
            case Absent => Failed(NOT_FOUND)
  {
    assert id in results <==> id in Abstract(results);
  }

  function OutcomesFor(queue: map<nat, QueueRow>, ids: set<nat>, fates: Fates): map<nat, Outcome> {
    map id | id in ids && id in queue :: Recorded(fates(queue[id]))
  }

  /** For each of these rows, its own call's outcome. */
  function RowsAdded(queue: map<nat, QueueRow>, ids: set<nat>, fates: Fates, now: int): map<nat, ResultRow> {
    map id | id in ids && id in queue :: StoredRow(Recorded(fates(queue[id])), now)
  }

  /** Each result is that of the queued row with its id. */
  predicate Answers(out: seq<CallResult>, queue: map<nat, QueueRow>, fates: Fates) {
    forall i :: 0 <= i < |out| ==> out[i].id in queue && out[i].outcome == Recorded(fates(queue[out[i].id]))
  }

  /** One INSERT of such a batch adds one row per call, with its own outcome. */
  lemma InsertAdds(table: map<nat, ResultRow>, out: seq<CallResult>, queue: map<nat, QueueRow>, fates: Fates, now: int)
    requires DistinctNew(table, out) && Answers(out, queue, fates)
    ensures Insert(table, Rows(out), now) == Some(table + RowsAdded(queue, ResultIds(out), fates, now))
  {
    InsertSucceeds(table, out, now);
    InsertGrows(table, out, now);
    var t := Insert(table, Rows(out), now).value;
    forall id | id in ResultIds(out) ensures id in queue && t[id] == StoredRow(Recorded(fates(queue[id])), now) {
      var i :| 0 <= i < |out| && out[i].id == id;
      InsertStores(table, out, now, i);
    }
    var added := RowsAdded(queue, ResultIds(out), fates, now);
    assert t.Keys == (table + added).Keys;
    assert forall id :: id in t ==> t[id] == (table + added)[id];
    assert t == table + added;
  }

  /** One row of both sides of the next lemma. */
  lemma AbstractAt(table: map<nat, ResultRow>, queue: map<nat, QueueRow>, ids: set<nat>, fates: Fates,
                   now: int, id: nat)
    ensures var both := table + RowsAdded(queue, ids, fates, now);
            var stored := Abstract(table) + P.StoredAt(OutcomesFor(queue, ids, fates), now);
            && (id in both <==> id in stored)
            && (id in both ==> stored[id] == P.Stored(OutcomeOf(both[id]), both[id].created))
  {
  }

  lemma AbstractAdds(table: map<nat, ResultRow>, queue: map<nat, QueueRow>, ids: set<nat>, fates: Fates, now: int)
    ensures Abstract(table + RowsAdded(queue, ids, fates, now))
         == Abstract(table) + P.StoredAt(OutcomesFor(queue, ids, fates), now)
  {
    forall id: nat {
      AbstractAt(table, queue, ids, fates, now, id);
    }
  }

  lemma AbstractYoung(table: map<nat, ResultRow>, cutoff: int)
    ensures Abstract(Young(table, cutoff)) == P.Keep(Abstract(table), cutoff)
  {
  }

  // ----- One worker transaction, on the tables -----

  datatype Tables = Tables(queue: map<nat, QueueRow>, results: map<nat, ResultRow>, clock: int)

  /** Its rows are gone from the queue and have a result stamped with its start; old results are gone. */
  function AfterTxn(t: Tables, txn: Txn, ttl: int, fates: Fates): Tables {
    Tables(t.queue - txn.taken,
           Young(t.results + RowsAdded(t.queue, txn.taken, fates, t.clock), t.clock - ttl),
           t.clock + txn.took)
  }

  lemma NothingAdded(table: map<nat, ResultRow>, queue: map<nat, QueueRow>, fates: Fates, now: int)
    ensures table + RowsAdded(queue, {}, fates, now) == table
  {
  }

  /** `insert_results` and `ttl_cleanup`, one after the other in one transaction. */
  method StoreAndClean(db: Database, out: seq<CallResult>, ttl: int, fates: Fates, ghost queue: map<nat, QueueRow>)
    requires db.Valid() && DistinctNew(db.results, out) && Answers(out, queue, fates)
    modifies db`results
    ensures db.Valid()
    ensures db.results == Young(old(db.results) + RowsAdded(queue, ResultIds(out), fates, db.now), db.now - ttl)
  {
    InsertAdds(db.results, out, queue, fates, db.now);
    var ok := db.InsertResults(out);
    assert ok;
    ghost var stored := db.results;
    db.TtlCleanup(ttl);
    YoungIs(stored, db.now - ttl, db.results);
  }

  /** What the join loop returns for dequeued rows answers these rows. */
  lemma TruthfulAnswers(rows: set<QueueRow>, queue: map<nat, QueueRow>, out: seq<CallResult>, fates: Fates)
    requires forall row :: row in rows ==> row.id in queue && row == queue[row.id]
    requires Truthful(out, rows, fates)
    ensures Answers(out, queue, fates)
  {
    forall i | 0 <= i < |out|
      ensures out[i].id in queue && out[i].outcome == Recorded(fates(queue[out[i].id]))
    {
      var result := out[i];
      var row :| row in rows && result == ResultFor(row, fates);
    }
  }

  /** `dequeue` and the concurrent calls: a result for every row taken, none of them stored yet. */
  method DequeueAndCall(db: Database, size: nat, fates: Fates) returns (taken: set<nat>, out: seq<CallResult>)
    requires db.Valid()
    modifies db`queue
    ensures db.Valid() && IsBatch(old(db.queue).Keys, size, taken) && db.queue == old(db.queue) - taken
    ensures DistinctIds(out) && Answers(out, old(db.queue), fates) && ResultIds(out) == taken
    ensures out == [] <==> taken == {}
  {
    ghost var before := db.queue;
    var rows := db.Dequeue(size);
    taken := IdsOf(rows);
    if rows == [] {
      out := [];
    } else {
      assert rows[0].id in taken;
      out := RunBatch(rows, fates);
      TruthfulAnswers(RowSet(rows), before, out, fates);
    }
  }

  lemma AllNewIfDisjoint(table: map<nat, ResultRow>, out: seq<CallResult>)
    requires ResultIds(out) !! table.Keys
    ensures AllNew(table, out)
  {
    assert forall i :: 0 <= i < |out| ==> out[i].id in ResultIds(out);
  }

  function Now(db: Database): Tables
    reads db
  {
    Tables(db.queue, db.results, db.clock)
  }

  predicate Disjoint(t: Tables) {
    forall id :: id in t.queue ==> id !in t.results
  }

  lemma BatchHasNoResults(t: Tables, size: nat, taken: set<nat>)
    requires Disjoint(t) && IsBatch(t.queue.Keys, size, taken)
    ensures taken !! t.results.Keys
  {
  }

  /** From the end of the dequeue to the commit: the calls take their time, then the results go in. */
  method CallStoreAndClean(db: Database, out: seq<CallResult>, ttl: int, fates: Fates,
                           ghost t: Tables, ghost taken: set<nat>)
    returns (took: nat)
    requires db.Valid() && taken !! db.results.Keys
    requires DistinctIds(out) && Answers(out, t.queue, fates) && ResultIds(out) == taken && (out == [] <==> taken == {})
    requires db.results == t.results && db.now == t.clock == db.clock
    modifies db`results, db`clock
    ensures db.Valid() && (taken == {} ==> took == 0)
    ensures db.results == AfterTxn(t, Txn(taken, took), ttl, fates).results
    ensures db.clock == AfterTxn(t, Txn(taken, took), ttl, fates).clock
  {
    took := 0;
    if out == [] {
      NothingAdded(db.results, t.queue, fates, db.now);
      db.TtlCleanup(ttl);
      YoungIs(t.results, db.now - ttl, db.results);
    } else {
      took := db.Elapse();
      AllNewIfDisjoint(db.results, out);
      StoreAndClean(db, out, ttl, fates, t.queue);
    }
  }

  /** The body of the inner loop (src/worker.rs:63-113). */
  method RunTransaction(db: Database, size: nat, ttl: int, fates: Fates) returns (txn: Txn)
    requires db.Valid() && size >= 1 && Disjoint(Now(db))
    modifies db
    ensures db.Valid() && Now(db) == AfterTxn(old(Now(db)), txn, ttl, fates)
    ensures IsBatch(old(db.queue).Keys, size, txn.taken) && (txn.taken == {} ==> txn.took == 0)
  {
    ghost var before := Now(db);
    db.BeginTransaction();
    var taken, out := DequeueAndCall(db, size, fates);
    BatchHasNoResults(before, size, taken);
    var took := CallStoreAndClean(db, out, ttl, fates, before, taken);
    txn := Txn(taken, took);
  }

  // ----- The whole drain -----

  function AfterAll(t: Tables, txns: seq<Txn>, ttl: int, fates: Fates): Tables {
    if txns == [] then t
    else AfterTxn(AfterAll(t, txns[..|txns| - 1], ttl, fates), txns[|txns| - 1], ttl, fates)
  }

  lemma AfterOneMore(t: Tables, txns: seq<Txn>, txn: Txn, ttl: int, fates: Fates)
    ensures AfterAll(t, txns + [txn], ttl, fates) == AfterTxn(AfterAll(t, txns, ttl, fates), txn, ttl, fates)
  {
    assert (txns + [txn])[..|txns|] == txns;
  }

  lemma KeysLeft(queue: map<nat, QueueRow>, taken: set<nat>)
    ensures (queue - taken).Keys == queue.Keys - taken
  {
  }

  lemma {:induction false} QueueAfter(t: Tables, txns: seq<Txn>, ttl: int, fates: Fates)
    ensures AfterAll(t, txns, ttl, fates).queue.Keys == Left(t.queue.Keys, txns)
  {
    if txns != [] {
      QueueAfter(t, txns[..|txns| - 1], ttl, fates);
      KeysLeft(AfterAll(t, txns[..|txns| - 1], ttl, fates).queue, txns[|txns| - 1].taken);
    }
  }

  /** So far: these transactions, none of them empty, lead from `t` to `u`. */
  ghost predicate SoFar(t: Tables, txns: seq<Txn>, u: Tables, size: nat, ttl: int, fates: Fates) {
    && InTurn(t.queue.Keys, txns, size) && AfterAll(t, txns, ttl, fates) == u
    && (forall i :: 0 <= i < |txns| ==> txns[i].taken != {})
  }

  lemma StillDisjoint(t: Tables, txn: Txn, ttl: int, fates: Fates)
    requires Disjoint(t)
    ensures Disjoint(AfterTxn(t, txn, ttl, fates))
  {
  }

  /** Taking rows leaves fewer; taking none means that there were none. */
  lemma Shrinks(t: Tables, txn: Txn, size: nat, ttl: int, fates: Fates)
    requires size >= 1 && IsBatch(t.queue.Keys, size, txn.taken)
    ensures txn.taken != {} ==> AfterTxn(t, txn, ttl, fates).queue.Keys < t.queue.Keys
    ensures txn.taken == {} ==> AfterTxn(t, txn, ttl, fates).queue == map[]
  {
    if txn.taken == {} {
      ShortBatchIsAll(t.queue.Keys, size, {});
    } else {
      var id :| id in txn.taken;
      assert id in t.queue.Keys && id !in AfterTxn(t, txn, ttl, fates).queue.Keys;
    }
  }

  /** One more transaction that found rows. */
  lemma GoesOn(t: Tables, txns: seq<Txn>, u: Tables, txn: Txn, size: nat, ttl: int, fates: Fates)
    requires SoFar(t, txns, u, size, ttl, fates)
    requires IsBatch(u.queue.Keys, size, txn.taken) && txn.taken != {}
    ensures SoFar(t, txns + [txn], AfterTxn(u, txn, ttl, fates), size, ttl, fates)
  {
    QueueAfter(t, txns, ttl, fates);
    OneMore(t.queue.Keys, txns, txn, size);
    AfterOneMore(t, txns, txn, ttl, fates);
    assert forall i :: 0 <= i < |txns| ==> (txns + [txn])[i] == txns[i];
  }

  /** And one that found none, which ends the drain. */
  lemma Ends(t: Tables, txns: seq<Txn>, u: Tables, size: nat, ttl: int, fates: Fates)
    requires SoFar(t, txns, u, size, ttl, fates)
    requires IsBatch(u.queue.Keys, size, {})
    ensures InTurn(t.queue.Keys, txns + [Txn({}, 0)], size) && StopsWhenEmpty(txns + [Txn({}, 0)])
    ensures AfterAll(t, txns + [Txn({}, 0)], ttl, fates) == AfterTxn(u, Txn({}, 0), ttl, fates)
  {
    var last := Txn({}, 0);
    QueueAfter(t, txns, ttl, fates);
    OneMore(t.queue.Keys, txns, last, size);
    AfterOneMore(t, txns, last, ttl, fates);
    forall i | 0 <= i < |txns| ensures (txns + [last])[i] == txns[i] {
    }
  }

  /** One pass, and how much is left after it. */
  method Pass(db: Database, size: nat, ttl: int, fates: Fates) returns (txn: Txn)
    requires db.Valid() && size >= 1 && Disjoint(Now(db))
    modifies db
    ensures db.Valid() && Now(db) == AfterTxn(old(Now(db)), txn, ttl, fates) && Disjoint(Now(db))
    ensures IsBatch(old(db.queue).Keys, size, txn.taken) && (txn.taken == {} ==> txn.took == 0)
    ensures txn.taken != {} ==> db.queue.Keys < old(db.queue).Keys
    ensures txn.taken == {} ==> db.queue == map[]
  {
    ghost var before := Now(db);
    txn := RunTransaction(db, size, ttl, fates);
    StillDisjoint(before, txn, ttl, fates);
    Shrinks(before, txn, size, ttl, fates);
  }

  /** The inner loop, without SIGTERM and without other sessions: transaction after transaction. */
  method Drain(db: Database, size: nat, ttl: int, fates: Fates) returns (txns: seq<Txn>)
    requires db.Valid() && size >= 1 && Disjoint(Now(db))
    modifies db
    ensures db.Valid() && db.queue == map[]
    ensures InTurn(old(db.queue).Keys, txns, size) && StopsWhenEmpty(txns)
    ensures Now(db) == AfterAll(old(Now(db)), txns, ttl, fates)
  {
    ghost var before := Now(db);
    txns := [];
    while true
      invariant db.Valid() && Disjoint(Now(db)) && SoFar(before, txns, Now(db), size, ttl, fates)
      decreases db.queue.Keys
    {
      ghost var t := Now(db);
      var txn := Pass(db, size, ttl, fates);
      if txn.taken == {} {
        Ends(before, txns, t, size, ttl, fates);
        txns := txns + [txn];
        break;
      }
      GoesOn(before, txns, t, txn, size, ttl, fates);
      txns := txns + [txn];
    }
  }
}
