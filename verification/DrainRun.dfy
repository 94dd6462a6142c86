/** Which results a drain without interference leaves; and that it is a run of the protocol. */
module DrainRun {
  import opened CallTypes
  import opened Batches
  import opened Blocks
  import opened Queue
  import opened JoinLoop
  import opened Worker
  import P = Protocol
  import L = Ledger

  // ----- With which results -----

  lemma RowStored(u: Tables, txn: Txn, id: nat, ttl: int, fates: Fates)
    requires id in txn.taken && id in u.queue
    ensures var v := AfterTxn(u, txn, ttl, fates);
            && (id in v.results <==> ttl >= 0)
            && (id in v.results ==> v.results[id] == StoredRow(Recorded(fates(u.queue[id])), u.clock))
  {
  }

  lemma RowKept(u: Tables, txn: Txn, id: nat, ttl: int, fates: Fates)
    requires id !in txn.taken
    ensures var v := AfterTxn(u, txn, ttl, fates);
            && (id in v.results <==> id in u.results && u.results[id].created >= u.clock - ttl)
            && (id in v.results ==> v.results[id] == u.results[id])
  {
  }

  lemma ClockRuns(t: Tables, txns: seq<Txn>, ttl: int, fates: Fates)
    requires txns != []
    ensures AfterAll(t, txns[..|txns| - 1], ttl, fates).clock <= AfterAll(t, txns, ttl, fates).clock
  {
  }

  lemma NotTakenAgain(queue: set<nat>, txns: seq<Txn>, i: nat, j: nat, id: nat, size: nat)
    requires InTurn(queue, txns, size) && i < j < |txns| && id in txns[i].taken
    ensures id !in txns[j].taken
  {
    if id in txns[j].taken {
      BlocksIncrease(queue, txns, i, j, id, id, size);
    }
  }

  /** As long as a row is queued it is as it was queued. */
  lemma {:induction false} RowsUnchanged(t: Tables, txns: seq<Txn>, id: nat, ttl: int, fates: Fates)
    requires id in AfterAll(t, txns, ttl, fates).queue
    ensures id in t.queue && AfterAll(t, txns, ttl, fates).queue[id] == t.queue[id]
  {
    if txns != [] {
      RowsUnchanged(t, txns[..|txns| - 1], id, ttl, fates);
    }
  }

  /** The result of a row that transaction `i` took and no later one, where the last cleanup leaves it. */
  lemma {:induction false} StoredAndKept(t: Tables, txns: seq<Txn>, i: nat, id: nat, ttl: int, fates: Fates)
    requires i < |txns| && id in txns[i].taken && id in AfterAll(t, txns[..i], ttl, fates).queue
    requires forall j :: i < j < |txns| ==> id !in txns[j].taken
    ensures var u := AfterAll(t, txns, ttl, fates);
            var start := AfterAll(t, txns[..i], ttl, fates).clock;
            var last := AfterAll(t, txns[..|txns| - 1], ttl, fates).clock;
            && id in t.queue
            && (id in u.results <==> start >= last - ttl)
            && (id in u.results ==> u.results[id] == StoredRow(Recorded(fates(t.queue[id])), start))
  {
    var init, last := txns[..|txns| - 1], txns[|txns| - 1];
    var u := AfterAll(t, init, ttl, fates);
    if i < |txns| - 1 {
      assert forall j :: i < j < |init| ==> init[j] == txns[j];
      assert init[..i] == txns[..i];
      StoredAndKept(t, init, i, id, ttl, fates);
      RowKept(u, last, id, ttl, fates);
      ClockRuns(t, init, ttl, fates);
    } else {
      RowsUnchanged(t, init, id, ttl, fates);
      RowStored(u, last, id, ttl, fates);
    }
  }

  /**
   * A row taken by transaction `i` has its own outcome stored, stamped with the start of that
   * transaction, exactly as long as this is not older than the TTL at the last cleanup.
   */
  lemma RowFinished(t: Tables, txns: seq<Txn>, i: nat, id: nat, size: nat, ttl: int, fates: Fates)
    requires InTurn(t.queue.Keys, txns, size) && i < |txns| && id in txns[i].taken
    ensures var u := AfterAll(t, txns, ttl, fates);
            var start := AfterAll(t, txns[..i], ttl, fates).clock;
            var last := AfterAll(t, txns[..|txns| - 1], ttl, fates).clock;
            && id in t.queue
            && (id in u.results <==> start >= last - ttl)
            && (id in u.results ==> u.results[id] == StoredRow(Recorded(fates(t.queue[id])), start))
  {
    forall j | i < j < |txns| ensures id !in txns[j].taken {
      NotTakenAgain(t.queue.Keys, txns, i, j, id, size);
    }
    InTurnAt(t.queue.Keys, txns, i, size);
    QueueAfter(t, txns[..i], ttl, fates);
    StoredAndKept(t, txns, i, id, ttl, fates);
  }

  /** How long all of them took. */
  function TotalTime(txns: seq<Txn>): nat {
    if txns == [] then 0 else TotalTime(txns[..|txns| - 1]) + txns[|txns| - 1].took
  }

  lemma {:induction false} ClockAfter(t: Tables, txns: seq<Txn>, ttl: int, fates: Fates)
    ensures AfterAll(t, txns, ttl, fates).clock == t.clock + TotalTime(txns)
  {
    if txns != [] {
      ClockAfter(t, txns[..|txns| - 1], ttl, fates);
    }
  }

  /** A row that was queued reads as its own outcome, if the drain took no longer than the TTL. */
  lemma ReadsAsRecorded(t: Tables, txns: seq<Txn>, id: nat, size: nat, ttl: int, fates: Fates)
    requires InTurn(t.queue.Keys, txns, size) && Left(t.queue.Keys, txns) == {}
    requires TotalTime(txns) <= ttl && id in t.queue
    ensures var u := AfterAll(t, txns, ttl, fates);
            id in u.results && Lookup(u.queue, u.results, id) == StatusOf(Recorded(fates(t.queue[id])))
  {
    var i := EveryRowTaken(t.queue.Keys, txns, id);
    RowFinished(t, txns, i, id, size, ttl, fates);
    ClockAfter(t, txns, ttl, fates);
    ClockRuns(t, txns, ttl, fates);
    ClockAfter(t, txns[..i], ttl, fates);
  }

  /** The drain ends with the queue empty and, within the TTL, exactly one result for every row. */
  lemma OneResultPerRow(t: Tables, txns: seq<Txn>, size: nat, ttl: int, fates: Fates)
    requires size >= 1 && InTurn(t.queue.Keys, txns, size) && StopsWhenEmpty(txns)
    ensures var u := AfterAll(t, txns, ttl, fates);
            && u.queue == map[]
            && (TotalTime(txns) <= ttl ==>
                  forall id :: id in t.queue ==>
                    id in u.results && Lookup(u.queue, u.results, id) == StatusOf(Recorded(fates(t.queue[id]))))
  {
    EmptyAtEnd(t.queue.Keys, txns, size);
    QueueAfter(t, txns, ttl, fates);
    if TotalTime(txns) <= ttl {
      forall id | id in t.queue {
        ReadsAsRecorded(t, txns, id, size, ttl, fates);
      }
    }
  }

  // ----- The drain is a run of the protocol -----

  /** The protocol steps of a transaction that found nothing. */
  lemma EmptySteps(e: P.Environment, s0: P.State, s: P.State) returns (t: P.State)
    requires L.Inv(s) && P.Reaches(e, s0, s) && s.pc == P.Draining && !s.sigterm && s.queue == {}
    ensures P.Reaches(e, s0, t) && L.Inv(t) && t.pc == P.Waiting
    ensures t.queue == s.queue && t.results == P.Keep(s.results, s.clock - s.ttl) && t.flag == s.flag
  {
    L.StepKeepsInv(e, s, P.Open);
    t := P.Then(e, s0, s, P.Open);
    L.StepKeepsInv(e, t, P.Dequeue({}));
    t := P.Then(e, s0, t, P.Dequeue({}));
    L.StepKeepsInv(e, t, P.CommitEmpty);
    t := P.Then(e, s0, t, P.CommitEmpty);
  }

  /** The protocol steps up to the end of the calls, which took `d`. */
  lemma TakeSteps(e: P.Environment, s0: P.State, s: P.State, taken: set<nat>, d: nat) returns (t: P.State)
    requires L.Inv(s) && P.Reaches(e, s0, s) && s.pc == P.Draining && !s.sigterm
    requires IsBatch(s.queue, s.batch, taken) && taken != {}
    ensures P.Reaches(e, s0, t) && L.Inv(t)
    ensures t == s.(pc := P.Calling(s.clock, taken), clock := s.clock + d)
  {
    L.StepKeepsInv(e, s, P.Open);
    t := P.Then(e, s0, s, P.Open);
    L.StepKeepsInv(e, t, P.Dequeue(taken));
    t := P.Then(e, s0, t, P.Dequeue(taken));
    L.StepKeepsInv(e, t, P.Tick(d));
    t := P.Then(e, s0, t, P.Tick(d));
  }

  /** And from there to the commit. */
  lemma FinishSteps(e: P.Environment, s0: P.State, s: P.State, outcomes: map<nat, Outcome>) returns (t: P.State)
    requires L.Inv(s) && P.Reaches(e, s0, s) && s.pc.Calling? && outcomes.Keys == s.pc.taken
    ensures P.Reaches(e, s0, t) && L.Inv(t) && t.pc == P.Draining
    ensures t.sigterm == s.sigterm && t.batch == s.batch && t.ttl == s.ttl && t.clock == s.clock && t.flag == s.flag
    ensures t.queue == s.queue - s.pc.taken
    ensures t.results == P.Keep(s.results + P.StoredAt(outcomes, s.pc.start), s.pc.start - s.ttl)
  {
    forall id | id in outcomes.Keys ensures id !in s.results.Keys {
      L.OnePlace(s, id);
    }
    L.StepKeepsInv(e, s, P.Persist(outcomes));
    t := P.Then(e, s0, s, P.Persist(outcomes));
    L.StepKeepsInv(e, t, P.CommitBatch);
    t := P.Then(e, s0, t, P.CommitBatch);
  }

  /** The results table after the transaction, in the protocol's terms. */
  lemma AbstractTransaction(t: Tables, taken: set<nat>, fates: Fates, ttl: int)
    ensures Abstract(Young(t.results + RowsAdded(t.queue, taken, fates, t.clock), t.clock - ttl))
         == P.Keep(Abstract(t.results) + P.StoredAt(OutcomesFor(t.queue, taken, fates), t.clock), t.clock - ttl)
  {
    AbstractAdds(t.results, t.queue, taken, fates, t.clock);
    AbstractYoung(t.results + RowsAdded(t.queue, taken, fates, t.clock), t.clock - ttl);
  }

  /** The worker is at the top of the drain loop. */
  ghost predicate Ready(s: P.State, size: nat, ttl: int) {
    L.Inv(s) && s.pc == P.Draining && !s.sigterm && s.batch == size && s.ttl == ttl
  }

  /** The tables of `t` are those of `s` after a transaction with these rows and outcomes. */
  ghost predicate TookAndStored(s: P.State, t: P.State, taken: set<nat>, outcomes: map<nat, Outcome>) {
    && t.queue == s.queue - taken
    && t.results == P.Keep(s.results + P.StoredAt(outcomes, s.clock), s.clock - s.ttl)
  }

  /** The same transaction, in the protocol. */
  lemma TransactionSteps(e: P.Environment, s0: P.State, s: P.State,
                         taken: set<nat>, outcomes: map<nat, Outcome>, d: nat)
    returns (t: P.State)
    requires P.Reaches(e, s0, s) && Ready(s, s.batch, s.ttl)
    requires IsBatch(s.queue, s.batch, taken) && (taken == {} ==> d == 0) && outcomes.Keys == taken
    ensures P.Reaches(e, s0, t)
    ensures taken == {} ==> t.pc == P.Waiting
    ensures taken != {} ==> Ready(t, s.batch, s.ttl) && t.clock == s.clock + d
    ensures TookAndStored(s, t, taken, outcomes) && t.flag == s.flag
  {
    if taken == {} {
      ShortBatchIsAll(s.queue, s.batch, taken);
      assert s.results + P.StoredAt(outcomes, s.clock) == s.results;
      t := EmptySteps(e, s0, s);
    } else {
      t := TakeSteps(e, s0, s, taken, d);
      t := FinishSteps(e, s0, t, outcomes);
    }
  }

  ghost predicate Like(t: Tables, s: P.State) {
    Matches(t.queue, t.results, s)
  }

  /** And it is over these tables. */
  ghost predicate AtTop(t: Tables, s: P.State, size: nat, ttl: int) {
    Like(t, s) && t.clock == s.clock && Ready(s, size, ttl)
  }

  /** In a reachable state no queued row has a result, so the drain can be run on its tables. */
  lemma DrainCanRun(t: Tables, s: P.State)
    requires Like(t, s) && L.Inv(s)
    ensures Disjoint(t)
  {
    forall id | id in t.queue ensures id !in t.results {
      L.OnePlace(s, id);
      assert id in t.results <==> id in Abstract(t.results);
    }
  }

  lemma OutcomesOfAll(t: Tables, taken: set<nat>, size: nat, fates: Fates)
    requires IsBatch(t.queue.Keys, size, taken)
    ensures OutcomesFor(t.queue, taken, fates).Keys == taken
  {
  }

  lemma StillLike(t: Tables, s: P.State, txn: Txn, u: P.State, ttl: int, fates: Fates)
    requires Like(t, s) && t.clock == s.clock && s.ttl == ttl
    requires TookAndStored(s, u, txn.taken, OutcomesFor(t.queue, txn.taken, fates))
    ensures Like(AfterTxn(t, txn, ttl, fates), u)
  {
    KeysLeft(t.queue, txn.taken);
    AbstractTransaction(t, txn.taken, fates, ttl);
  }

  /** With rows the drain goes on. */
  lemma TxnRefines(e: P.Environment, s: P.State, t: Tables, v: P.State, txn: Txn, size: nat, ttl: int, fates: Fates)
    returns (u: P.State)
    requires P.Reaches(e, s, v) && AtTop(t, v, size, ttl)
    requires IsBatch(t.queue.Keys, size, txn.taken) && txn.taken != {}
    ensures P.Reaches(e, s, u) && AtTop(AfterTxn(t, txn, ttl, fates), u, size, ttl) && u.flag == v.flag
  {
    OutcomesOfAll(t, txn.taken, size, fates);
    u := TransactionSteps(e, s, v, txn.taken, OutcomesFor(t.queue, txn.taken, fates), txn.took);
    StillLike(t, v, txn, u, ttl, fates);
  }

  /** Without rows the worker goes back to its wait. */
  lemma LastRefines(e: P.Environment, s: P.State, t: Tables, v: P.State, txn: Txn, size: nat, ttl: int, fates: Fates)
    returns (u: P.State)
    requires P.Reaches(e, s, v) && AtTop(t, v, size, ttl)
    requires IsBatch(t.queue.Keys, size, txn.taken) && txn.taken == {} && txn.took == 0
    ensures P.Reaches(e, s, u) && Like(AfterTxn(t, txn, ttl, fates), u) && u.pc == P.Waiting && u.flag == v.flag
  {
    OutcomesOfAll(t, txn.taken, size, fates);
    u := TransactionSteps(e, s, v, txn.taken, OutcomesFor(t.queue, txn.taken, fates), 0);
    StillLike(t, v, txn, u, ttl, fates);
  }

  lemma {:induction false} PrefixRefines(e: P.Environment, s: P.State, t: Tables, txns: seq<Txn>,
                                         size: nat, ttl: int, fates: Fates)
    returns (u: P.State)
    requires AtTop(t, s, size, ttl) && InTurn(t.queue.Keys, txns, size)
    requires forall i :: 0 <= i < |txns| ==> txns[i].taken != {}
    ensures P.Reaches(e, s, u) && AtTop(AfterAll(t, txns, ttl, fates), u, size, ttl) && u.flag == s.flag
  {
    if txns == [] {
      P.ReachesSelf(e, s);
      u := s;
    } else {
      var init, last := txns[..|txns| - 1], txns[|txns| - 1];
      QueueAfter(t, init, ttl, fates);
      var v := PrefixRefines(e, s, t, init, size, ttl, fates);
      assert txns[|txns| - 1].taken != {};
      u := TxnRefines(e, s, AfterAll(t, init, ttl, fates), v, last, size, ttl, fates);
    }
  }

  /**
   * The drain refines the protocol: what the loop does to the tables is what some run of protocol
   * steps, from the top of the drain to the next wait, does to the state.
   */
  lemma DrainRefines(e: P.Environment, s: P.State, t: Tables, txns: seq<Txn>,
                     size: nat, ttl: int, fates: Fates)
    returns (u: P.State)
    requires AtTop(t, s, size, ttl) && InTurn(t.queue.Keys, txns, size) && StopsWhenEmpty(txns)
    ensures P.Reaches(e, s, u) && u.pc == P.Waiting && u.flag == s.flag
    ensures Like(AfterAll(t, txns, ttl, fates), u)
  {
    var init, last := txns[..|txns| - 1], txns[|txns| - 1];
    assert forall i :: 0 <= i < |init| ==> init[i] == txns[i];
    QueueAfter(t, init, ttl, fates);
    var v := PrefixRefines(e, s, t, init, size, ttl, fates);
    u := LastRefines(e, s, AfterAll(t, init, ttl, fates), v, last, size, ttl, fates);
  }
}
