/** A wake-up that is owed does not only arrive: the rows that the worker slept over get done. */
module Progress {
  import opened Batches
  import opened CallTypes
  import opened Protocol
  import opened Ledger
  import W = WakeUp
  import R = Retention

  /** The worker by itself drains the queue, whatever is in it. */
  lemma {:induction false} DrainsDry(e: Environment, s: State, t: State, b: nat) returns (u: State)
    requires ReachesWithin(e, s, t, Alone(b)) && t.pc.Draining? && !t.sigterm && Inv(t)
    ensures ReachesWithin(e, s, u, Alone(b)) && u.pc.Waiting? && u.queue == {}
    decreases t.queue
  {
    u := R.OneMoreCycle(e, s, t, Alone(b));
    if t.queue != {} {
      u := DrainsDry(e, s, u, b);
    }
  }

  lemma WithinReaches(e: Environment, s: State, t: State, r: Regime)
    requires ReachesWithin(e, s, t, r)
    ensures Reaches(e, s, t)
  {
    var steps :| Run(e, s, steps) && After(e, s, steps) == t && Within(steps, r);
  }

  /**
   * From every reachable state in which the worker sleeps over rows, some backend's callback and
   * the worker alone, with nobody else taking a step, reach an empty queue: every one of the rows
   * then has its result, or had it until a cleanup.
   */
  lemma SleepEnds(e: Environment, s: State, t: State) returns (b: nat, u: State)
    requires W.Dependable(e) && ServerStart(s) && Conserved(s) && s.queue == {}
    requires Reaches(e, s, t) && W.SleepsOverRows(t)
    ensures ReachesWithin(e, t, u, Alone(b)) && u.pc.Waiting? && u.queue == {}
    ensures forall id :: id in t.queue ==> id in u.results || id in u.expired
  {
    b := W.OwedWakeUpArrives(e, s, t);
    SelfWithin(e, t, Alone(b));
    W.FinishAlone(e, t, t, b);
    u := W.FinishCallback(e, t, b);
    u := ThenWithin(e, t, u, Wait, Alone(b));
    u := ThenWithin(e, t, u, ClaimFlag, Alone(b));
    WithinReaches(e, t, u, Alone(b));
    ReachesThrough(e, s, t, u);
    ReachKeepsInv(e, s, u);
    u := DrainsDry(e, t, u, b);
    WithinReaches(e, t, u, Alone(b));
    ReachKeepsInv(e, s, t);
    forall id | id in t.queue ensures id in u.results || id in u.expired {
      OnePlace(t, id);
      ReachAdvances(e, t, u, id);
    }
  }

  // ----- What is always possible -----

  /** A step that the worker process takes by itself. */
  predicate Own(step: Step) {
    || step.Start? || step.RegisterHook? || step.Publish? || step.Wait? || step.ClaimFlag? || step.Break?
    || step.Open? || step.Dequeue? || step.Persist? || step.CommitBatch? || step.CommitEmpty?
    || step.ExitStoreFlag? || step.ExitClearPointer?
  }

  /** Outside a transaction the next step is given by the state. */
  lemma CanStep(t: State) returns (step: Step)
    requires !InTransaction(t.pc) && !(t.pc.Waiting? && !t.latch)
    ensures Own(step) && Enabled(t, step)
  {
    step := match t.pc
      case Dead => Start
      case Starting => RegisterHook
      case Hooked => Publish
      case Waiting => Wait
      case Woken => ClaimFlag
      case Draining => if t.sigterm then Break else Open
      case Exiting => ExitStoreFlag
      case _ => ExitClearPointer;
  }

  /** Inside, there is always a batch to take, and the results of a batch can always be inserted. */
  lemma CanGoOn(e: Environment, s: State, t: State) returns (step: Step)
    requires ServerStart(s) && Conserved(s) && Reaches(e, s, t) && InTransaction(t.pc)
    ensures Own(step) && Enabled(t, step)
  {
    if t.pc.Opened? {
      var taken := BatchExists(t.queue, t.batch);
      step := Dequeue(taken);
    } else if t.pc.Calling? {
      var outcomes := map id | id in t.pc.taken :: Error("");
      Conservation(e, s, t);
      assert outcomes.Keys == t.pc.taken;
      step := Persist(outcomes);
    } else {
      step := if t.pc.Drained? then CommitEmpty else CommitBatch;
    }
  }

  /** The worker's steps come in this order, and no second worker starts beside it. */
  lemma StepsInOrder(s: State, step: Step)
    requires Own(step) && Enabled(s, step)
    ensures match s.pc
            case Dead => step.Start?
            case Starting => step.RegisterHook?
            case Hooked => step.Publish?
            case Waiting => step.Wait? && s.latch
            case Woken => step.ClaimFlag?
            case Draining => if s.sigterm then step.Break? else step.Open?
            case Opened(_) => step.Dequeue?
            case Drained(_) => step.CommitEmpty?
            case Calling(_, _) => step.Persist?
            case Persisted(_, _) => step.CommitBatch?
            case Exiting => step.ExitStoreFlag?
            case Unpublishing => step.ExitClearPointer?
  {
  }

  /** In no reachable state is the worker stuck: it can go on, unless it waits and its latch is not set. */
  lemma NeverStuck(e: Environment, s: State, t: State)
    requires ServerStart(s) && Conserved(s) && Reaches(e, s, t)
    ensures (exists step :: Own(step) && Enabled(t, step)) <==> !(t.pc.Waiting? && !t.latch)
  {
    if t.pc.Waiting? && !t.latch {
      forall step | Own(step) && Enabled(t, step) ensures false {
        StepsInOrder(t, step);
      }
    } else if InTransaction(t.pc) {
      var step := CanGoOn(e, s, t);
    } else {
      var step := CanStep(t);
    }
  }

  /**
   * Whatever else is going on: time passes; a worker that is there can be signalled and can die at
   * any point, can meet a lock at any point of a transaction, and any settings can be loaded
   * whenever it has woken up.
   */
  lemma AnyTime(s: State, d: nat, size: nat, ttl: int)
    ensures Enabled(s, Tick(d))
    ensures s.pc !in {Dead, Starting, Exiting, Unpublishing} ==>
              Enabled(s, Nudge) && Enabled(s, Sigterm) && Enabled(s, Crash)
    ensures s.pc.Starting? ==> Enabled(s, Crash)
    ensures s.pc.Opened? || s.pc.Drained? || s.pc.Calling? || s.pc.Persisted? ==> Enabled(s, LockWait)
    ensures s.pc.Woken? && size >= 1 ==> Enabled(s, Reload(size, ttl))
  {
  }

  /** And a backend between steps of a transaction can enqueue, roll back, commit or abort. */
  lemma AnyBackend(s: State, b: nat, kept: set<nat>)
    requires At(s, b).phase.Working?
    ensures Enabled(s, Enqueue(b)) && Enabled(s, Commit(b)) && Enabled(s, Abort(b))
    ensures kept <= At(s, b).rows ==> Enabled(s, RollbackTo(b, kept))
  {
  }
}
