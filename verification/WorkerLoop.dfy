/** One turn of the worker's outer loop: claim the wake-up, then drain (src/worker.rs:41-115). */
module WorkerLoop {
  import opened Blocks
  import opened Queue
  import opened JoinLoop
  import opened Worker
  import D = DrainRun
  import L = Ledger
  import P = Protocol
  import Session

  /**
   * What `wait_latch` returned from may have been any signal; only a raised flag starts a drain.
   * One that takes no longer than the TTL leaves a result for every row that was queued.
   */
  method Turn(shared: Session.SharedMemory, db: Database, size: nat, ttl: int, fates: Fates)
    returns (claimed: bool, txns: seq<Txn>)
    requires db.Valid() && size >= 1 && Disjoint(Now(db))
    modifies shared`shouldWake, db
    ensures db.Valid() && claimed == old(shared.shouldWake) && !shared.shouldWake
    ensures if claimed then
              && db.queue == map[]
              && InTurn(old(db.queue).Keys, txns, size) && StopsWhenEmpty(txns)
              && Now(db) == AfterAll(old(Now(db)), txns, ttl, fates)
            else Now(db) == old(Now(db))
    ensures claimed && db.clock - old(db.clock) <= ttl ==>
              forall id :: id in old(db.queue) ==>
                id in db.results && Lookup(db.queue, db.results, id) == StatusOf(Recorded(fates(old(db.queue)[id])))
  {
    ghost var before := Now(db);
    txns := [];
    claimed := shared.ClaimWake();
    if claimed {
      txns := Drain(db, size, ttl, fates);
      D.ClockAfter(before, txns, ttl, fates);
      D.OneResultPerRow(before, txns, size, ttl, fates);
    }
  }

  /** And that turn, flag and all, is a run of the protocol from just after the wait to the next one. */
  lemma TurnRefines(e: P.Environment, s: P.State, t: Tables, txns: seq<Txn>, size: nat, ttl: int, fates: Fates)
    returns (u: P.State)
    requires L.Inv(s) && s.pc == P.Woken && !s.sigterm && s.batch == size && s.ttl == ttl
    requires Matches(t.queue, t.results, s) && t.clock == s.clock
    requires s.flag ==> InTurn(t.queue.Keys, txns, size) && StopsWhenEmpty(txns)
    ensures P.Reaches(e, s, u) && u.pc == P.Waiting && !u.flag
    ensures var after := if s.flag then AfterAll(t, txns, ttl, fates) else t;
            Matches(after.queue, after.results, u)
  {
    P.ReachesSelf(e, s);
    L.StepKeepsInv(e, s, P.ClaimFlag);
    u := P.Then(e, s, s, P.ClaimFlag);
    if s.flag {
      var top := u;
      u := D.DrainRefines(e, top, t, txns, size, ttl, fates);
      P.ReachesThrough(e, s, top, u);
    }
  }
}
