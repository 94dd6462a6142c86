/** How long results stay: the cleanup that ends every worker transaction, over every run. */
module Retention {
  import opened CallTypes
  import opened Batches
  import opened Protocol
  import opened Ledger
  import opened OneCall

  /** The open worker transaction began in the past. */
  predicate BegunInThePast(s: State) {
    s.pc.Opened? || s.pc.Drained? || s.pc.Calling? || s.pc.Persisted? ==> s.pc.start <= s.clock
  }

  lemma StepBegunInThePast(e: Environment, s: State, step: Step)
    requires BegunInThePast(s) && Enabled(s, step)
    ensures BegunInThePast(Apply(e, s, step)) && s.clock <= Apply(e, s, step).clock
  {
  }

  lemma {:induction false} RunBegunInThePast(e: Environment, s: State, steps: seq<Step>)
    requires BegunInThePast(s) && Run(e, s, steps)
    ensures BegunInThePast(After(e, s, steps)) && s.clock <= After(e, s, steps).clock
    decreases |steps|
  {
    if steps != [] {
      StepBegunInThePast(e, s, steps[0]);
      RunBegunInThePast(e, Apply(e, s, steps[0]), steps[1..]);
    }
  }

  // ----- One worker transaction -----

  /** A transaction keeps all the results it has just inserted exactly when the TTL is not negative. */
  lemma OwnResultsSurviveExactlyWhen(e: Environment, s: State)
    requires Inv(s) && s.pc.Persisted?
    ensures s.pc.outcomes.Keys <= Apply(e, s, CommitBatch).results.Keys <==> s.ttl >= 0
  {
    forall id: nat {
      CommitMoves(e, s, CommitBatch, id);
    }
    var id :| id in s.pc.outcomes;
    assert id in InFlight(s.pc);
  }

  /** A result goes only in a transaction that began more than the TTL after the storing one did. */
  lemma DeletedOnlyAfterTtl(e: Environment, s: State, step: Step, id: nat)
    requires Inv(s) && Enabled(s, step)
    requires id in s.results && id !in Apply(e, s, step).results
    ensures Commits(step) && s.pc.start > s.results[id].created + s.ttl
  {
    if Commits(step) {
      CommitMoves(e, s, step, id);
    }
  }

  /** And after each transaction no older result remains. */
  lemma NothingOlderRemains(e: Environment, s: State, step: Step)
    requires Enabled(s, step) && Commits(step)
    ensures forall id :: id in Apply(e, s, step).results ==>
                Apply(e, s, step).results[id].created >= s.pc.start - s.ttl
  {
  }

  // ----- Which settings are in force -----

  /** Every setting is that of the last reload: nothing else changes it. */
  lemma {:induction false} SettingsStay(e: Environment, s: State, steps: seq<Step>)
    requires Run(e, s, steps) && forall step :: step in steps ==> !step.Reload?
    ensures After(e, s, steps).batch == s.batch && After(e, s, steps).ttl == s.ttl
    decreases |steps|
  {
    if steps != [] {
      assert steps[0] in steps && forall step :: step in steps[1..] ==> step in steps;
      SettingStays(e, s, steps[0]);
      SettingsStay(e, Apply(e, s, steps[0]), steps[1..]);
    }
  }

  lemma SettingStays(e: Environment, s: State, step: Step)
    requires Enabled(s, step) && !step.Reload?
    ensures Apply(e, s, step).batch == s.batch && Apply(e, s, step).ttl == s.ttl
  {
  }

  /**
   * As long as `Reload(n, ttl)` was the last one, a dequeue takes at most `n` rows, and a worker
   * commit leaves no result older than `ttl` at its start and deletes none that is not.
   */
  lemma ReloadGoverns(e: Environment, s: State, n: nat, ttl: int, steps: seq<Step>, step: Step)
    requires Enabled(s, Reload(n, ttl)) && Run(e, Apply(e, s, Reload(n, ttl)), steps)
    requires forall x :: x in steps ==> !x.Reload?
    requires Enabled(After(e, Apply(e, s, Reload(n, ttl)), steps), step)
    ensures var t := After(e, Apply(e, s, Reload(n, ttl)), steps);
            && (step.Dequeue? ==> |step.taken| <= n && (|step.taken| < n ==> step.taken == t.queue))
            && (Commits(step) ==> forall id :: id in Apply(e, t, step).results ==>
                  Apply(e, t, step).results[id].created >= t.pc.start - ttl)
            && (Commits(step) ==> forall id :: id in t.results && id !in Apply(e, t, step).results ==>
                  id in InFlight(t.pc) || t.results[id].created < t.pc.start - ttl)
  {
    var u := Apply(e, s, Reload(n, ttl));
    SettingsStay(e, u, steps);
    var t := After(e, u, steps);
    if step.Dequeue? && |step.taken| < n {
      ShortBatchIsAll(t.queue, n, step.taken);
    }
    if Commits(step) {
      NothingOlderRemains(e, t, step);
    }
  }

  // ----- Whole runs -----

  lemma StepRetains(e: Environment, s: State, step: Step, id: nat, floor: int)
    requires Inv(s) && BegunInThePast(s) && Enabled(s, step) && id in s.results
    requires s.ttl >= floor && s.clock <= s.results[id].created + floor
    ensures var t := Apply(e, s, step); id in t.results && t.results[id] == s.results[id]
  {
    if Commits(step) {
      CommitMoves(e, s, step, id);
    }
  }

  lemma StepKeepsTtl(e: Environment, s: State, step: Step, floor: int)
    requires Enabled(s, step) && s.ttl >= floor && (step.Reload? ==> step.ttl >= floor)
    ensures Apply(e, s, step).ttl >= floor
  {
  }

  /** Until the clock passes `created + floor`, a stored result is there, whatever else happens. */
  lemma {:induction false} Retained(e: Environment, s: State, steps: seq<Step>, id: nat, floor: int)
    requires Inv(s) && BegunInThePast(s) && Run(e, s, steps)
    requires id in s.results && s.ttl >= floor && Within(steps, KeepingTtl(floor))
    requires After(e, s, steps).clock <= s.results[id].created + floor
    ensures id in After(e, s, steps).results && After(e, s, steps).results[id] == s.results[id]
    decreases |steps|
  {
    if steps != [] {
      var t := Apply(e, s, steps[0]);
      StepKeepsInv(e, s, steps[0]);
      StepBegunInThePast(e, s, steps[0]);
      RunBegunInThePast(e, t, steps[1..]);
      StepRetains(e, s, steps[0], id, floor);
      assert steps[0] in steps && forall step :: step in steps[1..] ==> step in steps;
      StepKeepsTtl(e, s, steps[0], floor);
      Retained(e, t, steps[1..], id, floor);
    }
  }

  // ----- The clock starts when the transaction opens, not when the result is stored -----

  /** The promise as documented: a result stored in `s` is kept for the TTL from then on. */
  ghost predicate KeptSinceStored(e: Environment, s: State, id: nat) {
    forall t :: ReachesWithin(e, s, t, KeepingTtl(s.ttl)) && t.clock <= s.clock + s.ttl ==> id in t.results
  }

  /** The worker dies and its exit hook runs. */
  lemma Die(e: Environment, s: State, t: State) returns (t': State)
    requires ReachesWithin(e, s, t, KeepingTtl(s.ttl)) && t.pc.Draining?
    ensures ReachesWithin(e, s, t', KeepingTtl(s.ttl))
    ensures t'.pc == Dead && t'.flag && t'.results == t.results && t'.ttl == t.ttl && t'.clock == t.clock
  {
    t' := ThenWithin(e, s, t, Crash, KeepingTtl(s.ttl));
    t' := ThenWithin(e, s, t', ExitStoreFlag, KeepingTtl(s.ttl));
    t' := ThenWithin(e, s, t', ExitClearPointer, KeepingTtl(s.ttl));
  }

  /** The next worker comes up with its latch set and is in its wait loop. */
  lemma ComeUp(e: Environment, s: State, t: State) returns (t': State)
    requires ReachesWithin(e, s, t, KeepingTtl(s.ttl)) && t.pc.Dead?
    ensures ReachesWithin(e, s, t', KeepingTtl(s.ttl))
    ensures t'.pc == Waiting && t'.flag == t.flag && t'.latch && !t'.sigterm
    ensures t'.results == t.results && t'.ttl == t.ttl && t'.clock == t.clock
  {
    t' := ThenWithin(e, s, t, Start, KeepingTtl(s.ttl));
    t' := ThenWithin(e, s, t', RegisterHook, KeepingTtl(s.ttl));
    t' := ThenWithin(e, s, t', Publish, KeepingTtl(s.ttl));
    t' := ThenWithin(e, s, t', Nudge, KeepingTtl(s.ttl));
  }

  lemma RestartAndDrain(e: Environment, s: State, t: State) returns (t': State)
    requires ReachesWithin(e, s, t, KeepingTtl(s.ttl)) && t.pc.Draining?
    ensures ReachesWithin(e, s, t', KeepingTtl(s.ttl)) && t'.pc.Draining? && !t'.sigterm
    ensures t'.results == t.results && t'.ttl == t.ttl && t'.clock == t.clock
  {
    t' := Die(e, s, t);
    t' := ComeUp(e, s, t');
    t' := ThenWithin(e, s, t', Wait, KeepingTtl(s.ttl));
    t' := ThenWithin(e, s, t', ClaimFlag, KeepingTtl(s.ttl));
  }

  /** The calls end somehow. */
  lemma CallsEnd(e: Environment, s: State, t: State, r: Regime) returns (u: State)
    requires ReachesWithin(e, s, t, r) && t.pc.Calling? && Inv(t)
    ensures ReachesWithin(e, s, u, r) && Inv(u)
    ensures u.pc.Persisted? && u.pc.start == t.pc.start && u.pc.outcomes.Keys == t.pc.taken && u == t.(pc := u.pc)
  {
    var outcomes := map id | id in t.pc.taken :: Error("");
    forall id | id in outcomes.Keys ensures id !in t.results.Keys {
      OnePlace(t, id);
    }
    StepKeepsInv(e, t, Persist(outcomes));
    u := ThenWithin(e, s, t, Persist(outcomes), r);
  }

  /** And the transaction commits. */
  lemma FinishCycle(e: Environment, s: State, t: State, r: Regime) returns (t': State)
    requires ReachesWithin(e, s, t, r) && t.pc.Calling? && Inv(t)
    ensures ReachesWithin(e, s, t', r) && Inv(t') && t'.clock == t.clock
    ensures t'.pc.Draining? && t'.sigterm == t.sigterm && t'.queue == t.queue - t.pc.taken
    ensures forall id :: id in t.results && t.results[id].created < t.pc.start - t.ttl ==> id !in t'.results
  {
    var u := CallsEnd(e, s, t, r);
    t' := ThenWithin(e, s, u, CommitBatch, r);
    StepKeepsInv(e, u, CommitBatch);
    forall id | id in t.results && t.results[id].created < t.pc.start - t.ttl ensures id !in t'.results {
      CommitMoves(e, u, CommitBatch, id);
    }
  }

  /** The transaction opens at the present moment and takes its batch, whatever is in the queue. */
  lemma OpenCycle(e: Environment, s: State, t: State, r: Regime) returns (u: State, taken: set<nat>)
    requires ReachesWithin(e, s, t, r) && t.pc.Draining? && !t.sigterm && Inv(t)
    ensures ReachesWithin(e, s, u, r) && Inv(u)
    ensures u == t.(pc := if taken == {} then Drained(t.clock) else Calling(t.clock, taken))
    ensures IsBatch(t.queue, t.batch, taken)
  {
    u := ThenWithin(e, s, t, Open, r);
    taken := BatchExists(u.queue, u.batch);
    StepKeepsInv(e, t, Open);
    StepKeepsInv(e, u, Dequeue(taken));
    u := ThenWithin(e, s, u, Dequeue(taken), r);
  }

  /** One more cycle of the drain: it deletes what is too old and takes from the queue if it can. */
  lemma OneMoreCycle(e: Environment, s: State, t: State, r: Regime) returns (t': State)
    requires ReachesWithin(e, s, t, r) && t.pc.Draining? && !t.sigterm && Inv(t)
    ensures ReachesWithin(e, s, t', r) && Inv(t') && t'.clock == t.clock
    ensures if t.queue == {} then t'.pc.Waiting? && t'.queue == {}
            else t'.pc.Draining? && !t'.sigterm && t'.queue < t.queue
    ensures forall id :: id in t.results && t.results[id].created < t.clock - t.ttl ==> id !in t'.results
  {
    var u, taken := OpenCycle(e, s, t, r);
    if taken == {} {
      ShortBatchIsAll(t.queue, t.batch, taken);
      t' := ThenWithin(e, s, u, CommitEmpty, r);
      StepKeepsInv(e, u, CommitEmpty);
    } else {
      t' := FinishCycle(e, s, u, r);
      var id :| id in taken;
      assert id in t.queue && id !in t'.queue;
    }
  }

  /** A result whose transaction took no time is kept for the TTL. */
  lemma KeptIfImmediate(e: Environment, u: State, id: nat)
    requires Inv(u) && BegunInThePast(u) && id in u.results && u.results[id].created == u.clock
    ensures KeptSinceStored(e, u, id)
  {
    forall v | ReachesWithin(e, u, v, KeepingTtl(u.ttl)) && v.clock <= u.clock + u.ttl ensures id in v.results {
      var more :| Run(e, u, more) && After(e, u, more) == v && Within(more, KeepingTtl(u.ttl));
      Retained(e, u, more, id, u.ttl);
    }
  }

  /** One whose transaction took some is not: a cycle deletes it too early. */
  lemma LostIfLate(e: Environment, u: State, id: nat)
    requires Inv(u) && u.pc.Draining? && u.ttl >= 0 && id in u.results && u.results[id].created < u.clock
    ensures !KeptSinceStored(e, u, id)
  {
    SelfWithin(e, u, KeepingTtl(u.ttl));
    var v := RestartAndDrain(e, u, u);
    var wait := u.results[id].created + u.ttl + 1 - u.clock;
    v := ThenWithin(e, u, v, Tick(if wait > 0 then wait else 0), KeepingTtl(u.ttl));
    var more :| Run(e, u, more) && After(e, u, more) == v;
    RunKeepsInv(e, u, more);
    v := OneMoreCycle(e, u, v, KeepingTtl(u.ttl));
    assert id !in v.results;
  }

  /**
   * The documented promise holds for a stored result exactly when no time passed between opening
   * the transaction and committing it, that is, when the calls themselves took no time.
   */
  lemma KeptSinceStoredExactlyWhen(e: Environment, s: State, t: State, id: nat)
    requires ServerStart(s) && Conserved(s) && Reaches(e, s, t)
    requires t.pc.Persisted? && t.ttl >= 0 && id in t.pc.outcomes
    ensures KeptSinceStored(e, Apply(e, t, CommitBatch), id) <==> t.clock == t.pc.start
  {
    var steps :| Run(e, s, steps) && After(e, s, steps) == t;
    RunKeepsInv(e, s, steps);
    RunBegunInThePast(e, s, steps);
    CommitMoves(e, t, CommitBatch, id);
    StepKeepsInv(e, t, CommitBatch);
    StepBegunInThePast(e, t, CommitBatch);
    if t.clock == t.pc.start {
      KeptIfImmediate(e, Apply(e, t, CommitBatch), id);
    } else {
      LostIfLate(e, Apply(e, t, CommitBatch), id);
    }
  }

  /** It does break: a call that takes any time at all has its result deleted too early in some run. */
  lemma DeletedTooEarly(e: Environment, s: State, outcome: Outcome, d: nat) returns (t: State)
    requires ServerStart(s) && Conserved(s) && e.latchSetAtPublish && s.queue == {}
    requires s.ttl >= 0 && d >= 1
    ensures Reaches(e, s, t) && t.pc.Persisted? && s.nextId in t.pc.outcomes
    ensures !KeptSinceStored(e, Apply(e, t, CommitBatch), s.nextId)
  {
    t := OneCallStored(e, s, outcome, d);
    KeptSinceStoredExactlyWhen(e, s, t, s.nextId);
  }

  /** And with a negative TTL a result is gone in the transaction that stores it. */
  lemma OwnResultDeleted(e: Environment, s: State, outcome: Outcome) returns (t: State)
    requires ServerStart(s) && Conserved(s) && e.latchSetAtPublish && s.queue == {} && s.ttl < 0
    ensures Reaches(e, s, t) && t.pc.Persisted? && s.nextId in t.pc.outcomes
    ensures s.nextId !in Apply(e, t, CommitBatch).results
  {
    t := OneCallStored(e, s, outcome, 0);
    ReachKeepsInv(e, s, t);
    CommitMoves(e, t, CommitBatch, s.nextId);
  }
}
