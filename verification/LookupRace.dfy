/** What `lookup` answers when its two SELECTs read different snapshots (src/queue.rs:118-176). */
module LookupRace {
  import opened CallTypes
  import opened Protocol
  import opened Ledger
  import opened OneCall

  /**
   * Reading the tables at two moments gives an answer that was true at neither of them exactly
   * when the call was pending at the first and has its result at the second.
   */
  lemma AcrossWrongExactlyWhen(e: Environment, s: State, t: State, u: State, id: nat)
    requires ServerStart(s) && Conserved(s) && Reaches(e, s, t) && Reaches(e, t, u)
    ensures Across(t, u, id) != Observe(t, id) && Across(t, u, id) != Observe(u, id)
            <==> Observe(t, id).InQueue? && Observe(u, id).Done?
    ensures Observe(t, id).InQueue? && Observe(u, id).Done? ==> Across(t, u, id) == Absent
  {
    ReachKeepsInv(e, s, t);
    ReachAdvances(e, t, u, id);
    OnePlace(t, id);
    OnePlace(u, id);
  }

  /** It does happen: a run, on any server, at whose end a finished call reads as not found. */
  lemma RaceHappens(e: Environment, s: State, outcome: Outcome) returns (t: State, u: State)
    requires ServerStart(s) && Conserved(s) && e.latchSetAtPublish && s.queue == {} && s.ttl >= 0
    ensures Reaches(e, s, t) && Reaches(e, t, u)
    ensures Observe(t, s.nextId) == InQueue && Observe(u, s.nextId) == Done(outcome)
    ensures Across(t, u, s.nextId) == Absent
  {
    t := OneCallInFlight(e, s);
    ReachKeepsInv(e, s, t);
    OnePlace(t, s.nextId);
    ReachesSelf(e, t);
    u := Then(e, t, t, Persist(map[s.nextId := outcome]));
    u := Then(e, t, u, CommitBatch);
  }
}
