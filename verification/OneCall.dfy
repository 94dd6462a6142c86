/** The run of one call on an otherwise idle server, up to a moment of interest. */
module OneCall {
  import opened CallTypes
  import opened Batches
  import opened Protocol
  import opened Ledger
  import W = WakeUp

  /** A sleeping worker, and one call enqueued and signalled. */
  lemma OneCallQueued(e: Environment, s: State) returns (t: State)
    requires ServerStart(s) && e.latchSetAtPublish && s.queue == {}
    ensures Reaches(e, s, t)
    ensures t.pc == Waiting && t.latch && t.flag && !t.sigterm && t.batch == s.batch
    ensures t.queue == {s.nextId} && t.results == s.results && t.clock == s.clock && t.ttl == s.ttl
  {
    ReachesSelf(e, s);
    t := W.ComeUpAndSleep(e, s, s);
    t := W.EnqueueAndSignal(e, s, t);
  }

  /** The worker at the moment when that call is executing. */
  lemma OneCallInFlight(e: Environment, s: State) returns (t: State)
    requires ServerStart(s) && e.latchSetAtPublish && s.queue == {}
    ensures Reaches(e, s, t)
    ensures t.pc == Calling(s.clock, {s.nextId}) && t.clock == s.clock && t.ttl == s.ttl
    ensures t.queue == {s.nextId} && t.results == s.results
  {
    t := OneCallQueued(e, s);
    t := Then(e, s, t, Wait);
    t := Then(e, s, t, ClaimFlag);
    t := Then(e, s, t, Open);
    WholeQueueIsBatch(t.queue, t.batch, s.nextId);
    t := Then(e, s, t, Dequeue({s.nextId}));
  }

  lemma WholeQueueIsBatch(queue: set<nat>, size: nat, id: nat)
    requires queue == {id} && size >= 1
    ensures IsBatch(queue, size, {id})
  {
  }

  /** And when its result is inserted, `d` later, and not yet committed. */
  lemma OneCallStored(e: Environment, s: State, outcome: Outcome, d: nat) returns (t: State)
    requires ServerStart(s) && Conserved(s) && e.latchSetAtPublish && s.queue == {}
    ensures Reaches(e, s, t)
    ensures t.pc == Persisted(s.clock, map[s.nextId := outcome]) && t.clock == s.clock + d && t.ttl == s.ttl
  {
    t := OneCallInFlight(e, s);
    ReachKeepsInv(e, s, t);
    OnePlace(t, s.nextId);
    t := Then(e, s, t, Tick(d));
    t := Then(e, s, t, Persist(map[s.nextId := outcome]));
  }
}
