/**
 * No wake-up is lost: the worker never sleeps over a committed row unless some backend is still
 * inside its commit callback. And what the server has to provide for that, exactly.
 */
module WakeUp {
  import opened Prelude
  import opened Protocol

  /** The backend committed with the guard raised and has not stored the flag yet. */
  predicate BeforeFlag(s: State, b: nat) {
    At(s, b).phase.Signalling? || (At(s, b).phase.Committed? && At(s, b).guard)
  }

  /** The backend has stored the flag and will still set the latch of the current worker. */
  predicate BeforeLatch(s: State, b: nat) {
    At(s, b).phase.Signalled? || At(s, b).phase == Holding(Some(s.incarnation))
  }

  /** The worker sleeps in `wait_latch` while committed rows are in the queue. */
  predicate SleepsOverRows(s: State) {
    s.pc.Waiting? && !s.latch && s.queue != {}
  }

  /** A sleeping worker with rows to do is about to be woken. */
  ghost predicate WakeUpOwed(s: State) {
    SleepsOverRows(s) ==> exists b :: BeforeFlag(s, b) || BeforeLatch(s, b)
  }

  // ----- The invariant -----

  /** An uncommitted row keeps the guard raised, and rows exist only while a transaction runs. */
  ghost predicate GuardInv(s: State) {
    forall b, id :: id in At(s, b).rows ==> At(s, b).guard && At(s, b).phase.Working?
  }

  /** A received SIGTERM has set the latch, and nothing has taken that back. */
  predicate TermInv(s: State) {
    s.sigterm && (Live(s.pc) || s.pc.Starting?) ==> s.latch
  }

  ghost predicate PointerInv(s: State) {
    && (s.pc.Dead? || s.pc.Starting? || s.pc.Hooked? ==> s.pointer == None)
    && (Listening(s.pc) || s.pc.Woken? ==> s.pointer == Some(s.incarnation))
    && TermInv(s)
  }

  /** A set latch still has an effect: the worker will look at the flag after its next wait. */
  predicate Listening(pc: WorkerPc) {
    Live(pc) && !pc.Hooked? && !pc.Woken?
  }

  /** The worker has finished, or not begun, looking at the queue. */
  predicate Settled(s: State) {
    || s.pc.Dead? || s.pc.Starting? || s.pc.Hooked? || s.pc.Woken? || s.pc.Drained? || s.pc.Unpublishing?
    || (s.pc.Waiting? && !s.sigterm)
  }

  ghost predicate FlagInv(s: State) {
    && (s.flag && Listening(s.pc) && !s.latch ==> exists b :: BeforeLatch(s, b))
    && (Settled(s) && s.queue != {} ==> s.flag || exists b :: BeforeFlag(s, b))
  }

  ghost predicate Inv(s: State) {
    s.batch >= 1 && GuardInv(s) && PointerInv(s) && FlagInv(s)
  }

  predicate Dependable(e: Environment) {
    e.latchSetAtPublish && e.sigtermStays && e.latchKept
  }

  lemma StepKeepsGuardInv(e: Environment, s: State, step: Step)
    requires GuardInv(s) && Enabled(s, step)
    ensures GuardInv(Apply(e, s, step))
  {
    var t := Apply(e, s, step);
    forall b, id | id in At(t, b).rows
      ensures At(t, b).guard && At(t, b).phase.Working?
    {
      assert id in At(s, b).rows || (step == Enqueue(b) && id == s.nextId);
    }
  }

  lemma StepKeepsPointerInv(e: Environment, s: State, step: Step)
    requires Dependable(e) && PointerInv(s) && Enabled(s, step)
    ensures PointerInv(Apply(e, s, step))
  {
  }

  /** The second stage: a raised flag is followed by a latch set for whoever sleeps by then. */
  lemma StepKeepsLatchOwed(e: Environment, s: State, step: Step)
    requires Dependable(e) && Inv(s) && Enabled(s, step)
    ensures var t := Apply(e, s, step);
            t.flag && Listening(t.pc) && !t.latch ==> exists b :: BeforeLatch(t, b)
  {
    var t := Apply(e, s, step);
    if t.flag && Listening(t.pc) && !t.latch {
      if step.StoreFlag? || step.ReadPointer? {
        assert BeforeLatch(t, step.b);
      } else {
        var b :| BeforeLatch(s, b);
        assert BeforeLatch(t, b);
      }
    }
  }

  /** The first stage: rows in a settled queue have a raised flag, or one about to be raised. */
  lemma StepKeepsFlagOwed(e: Environment, s: State, step: Step)
    requires Dependable(e) && Inv(s) && Enabled(s, step)
    ensures var t := Apply(e, s, step);
            Settled(t) && t.queue != {} ==> t.flag || exists b :: BeforeFlag(t, b)
  {
    var t := Apply(e, s, step);
    if Settled(t) && t.queue != {} && !t.flag {
      if step.Commit? && At(s, step.b).rows != {} {
        assert BeforeFlag(t, step.b);
      } else {
        var b :| BeforeFlag(s, b);
        assert BeforeFlag(t, b);
      }
    }
  }

  lemma StepKeepsInv(e: Environment, s: State, step: Step)
    requires Dependable(e) && Inv(s) && Enabled(s, step)
    ensures Inv(Apply(e, s, step))
  {
    StepKeepsGuardInv(e, s, step);
    StepKeepsPointerInv(e, s, step);
    StepKeepsLatchOwed(e, s, step);
    StepKeepsFlagOwed(e, s, step);
  }

  lemma {:induction false} RunKeepsInv(e: Environment, s: State, steps: seq<Step>)
    requires Dependable(e) && Inv(s) && Run(e, s, steps)
    ensures Inv(After(e, s, steps))
    decreases |steps|
  {
    if steps != [] {
      StepKeepsInv(e, s, steps[0]);
      RunKeepsInv(e, Apply(e, s, steps[0]), steps[1..]);
    }
  }

  // ----- The theorem, and what it takes -----

  /** Whatever the backends, the worker and the surroundings do, in whatever order. */
  ghost predicate NeverLost(e: Environment, s: State) {
    forall t :: Reaches(e, s, t) ==> WakeUpOwed(t)
  }

  /** No run of a dependable server that starts with an empty queue loses a wake-up. */
  lemma NoLostWakeUp(e: Environment, s: State, t: State)
    requires Dependable(e) && ServerStart(s) && s.queue == {}
    requires Reaches(e, s, t)
    ensures WakeUpOwed(t)
  {
    var steps :| Run(e, s, steps) && After(e, s, steps) == t;
    RunKeepsInv(e, s, steps);
  }

  /**
   * The drain is sound. An empty dequeue means that no committed row was there at all, and any
   * row committed between it and the next sleep has the flag raised again, or about to be.
   */
  lemma DrainStopsSoundly(e: Environment, s: State, t: State)
    requires Dependable(e) && ServerStart(s) && s.queue == {}
    requires Reaches(e, s, t)
    ensures Enabled(t, Dequeue({})) ==> t.queue == {}
    ensures t.pc.Drained? && t.queue != {} ==> t.flag || exists b :: BeforeFlag(t, b)
  {
    var steps :| Run(e, s, steps) && After(e, s, steps) == t;
    RunKeepsInv(e, s, steps);
  }

  // ----- The wake-up that is owed does arrive -----

  /** The next access of a backend that is inside its commit callback. */
  function NextInCallback(b: nat, phase: Phase): Step
    requires !phase.Working?
  {
    match phase
    case Committed => SwapGuard(b)
    case Signalling => StoreFlag(b)
    case Signalled => ReadPointer(b)
    case Holding(_) => SetLatch(b)
  }

  function StepsLeft(phase: Phase): nat {
    match phase
    case Working => 0
    case Holding(_) => 1
    case Signalled => 2
    case Signalling => 3
    case Committed => 4
  }

  /** Backend `b` alone runs on to the end of its callback. */
  ghost function FinishCallback(e: Environment, s: State, b: nat): State
    decreases StepsLeft(At(s, b).phase)
  {
    if At(s, b).phase.Working? then s
    else FinishCallback(e, Apply(e, s, NextInCallback(b, At(s, b).phase)), b)
  }

  lemma {:induction false} CallbackWakes(e: Environment, s: State, b: nat)
    requires s.pc.Waiting? && s.pointer == Some(s.incarnation)
    requires BeforeFlag(s, b) || (BeforeLatch(s, b) && s.flag)
    ensures var t := FinishCallback(e, s, b);
            t.pc.Waiting? && t.flag && t.latch && t.sigterm == s.sigterm
    decreases StepsLeft(At(s, b).phase)
  {
    var t := Apply(e, s, NextInCallback(b, At(s, b).phase));
    if !At(t, b).phase.Working? {
      CallbackWakes(e, t, b);
    }
  }

  /**
   * Whenever the worker sleeps over rows there is a backend whose remaining callback steps, with
   * nothing else happening, wake it: it leaves its wait and claims the flag.
   */
  lemma OwedWakeUpArrives(e: Environment, s: State, t: State) returns (b: nat)
    requires Dependable(e) && ServerStart(s) && s.queue == {}
    requires Reaches(e, s, t) && SleepsOverRows(t)
    ensures var u := FinishCallback(e, t, b);
            && Enabled(u, Wait)
            && Enabled(Apply(e, u, Wait), ClaimFlag)
            && Apply(e, Apply(e, u, Wait), ClaimFlag).pc.Draining?
  {
    var steps :| Run(e, s, steps) && After(e, s, steps) == t;
    RunKeepsInv(e, s, steps);
    if t.flag {
      b :| BeforeLatch(t, b);
    } else {
      b :| BeforeFlag(t, b);
    }
    CallbackWakes(e, t, b);
  }

  lemma NextIsOwn(e: Environment, t: State, b: nat)
    requires !At(t, b).phase.Working?
    ensures var step := NextInCallback(b, At(t, b).phase);
            && Enabled(t, step) && Allows(Alone(b), step)
            && Apply(e, t, step).queue == t.queue
            && StepsLeft(At(Apply(e, t, step), b).phase) < StepsLeft(At(t, b).phase)
  {
  }

  lemma {:induction false} FinishAlone(e: Environment, s: State, t: State, b: nat)
    requires ReachesWithin(e, s, t, Alone(b))
    ensures ReachesWithin(e, s, FinishCallback(e, t, b), Alone(b))
    ensures At(FinishCallback(e, t, b), b).phase.Working? && FinishCallback(e, t, b).queue == t.queue
    decreases StepsLeft(At(t, b).phase)
  {
    if !At(t, b).phase.Working? {
      NextIsOwn(e, t, b);
      var u := ThenWithin(e, s, t, NextInCallback(b, At(t, b).phase), Alone(b));
      FinishAlone(e, s, u, b);
    }
  }

  // ----- What sleeping means -----

  /** The steps that can wake a sleeping worker, or end it. */
  predicate Wakes(step: Step) {
    step.SetLatch? || step.Nudge? || step.Sigterm? || step.Crash?
  }

  lemma StepStaysAsleep(e: Environment, s: State, step: Step)
    requires s.pc.Waiting? && !s.latch && Enabled(s, step) && !Wakes(step)
    ensures var t := Apply(e, s, step); t.pc.Waiting? && !t.latch && s.queue <= t.queue
  {
  }

  /** Without a signal the worker does nothing, however long: the rows it sleeps over stay queued. */
  lemma {:induction false} StaysAsleep(e: Environment, s: State, steps: seq<Step>)
    requires s.pc.Waiting? && !s.latch && Run(e, s, steps)
    requires forall step :: step in steps ==> !Wakes(step)
    ensures var t := After(e, s, steps); t.pc.Waiting? && !t.latch && s.queue <= t.queue
    decreases |steps|
  {
    if steps != [] {
      assert steps[0] in steps && forall step :: step in steps[1..] ==> step in steps;
      StepStaysAsleep(e, s, steps[0]);
      StaysAsleep(e, Apply(e, s, steps[0]), steps[1..]);
    }
  }

  // ----- SIGTERM -----

  lemma StepKeepsTermInv(e: Environment, s: State, step: Step)
    requires e.latchKept && TermInv(s) && Enabled(s, step)
    ensures TermInv(Apply(e, s, step))
  {
  }

  lemma {:induction false} RunKeepsTermInv(e: Environment, s: State, steps: seq<Step>)
    requires e.latchKept && TermInv(s) && Run(e, s, steps)
    ensures TermInv(After(e, s, steps))
    decreases |steps|
  {
    if steps != [] {
      StepKeepsTermInv(e, s, steps[0]);
      RunKeepsTermInv(e, Apply(e, s, steps[0]), steps[1..]);
    }
  }

  /** A worker that has received SIGTERM does not sleep: its wait returns, and ends the process. */
  lemma SigtermEndsWait(e: Environment, s: State, t: State)
    requires e.latchKept && ServerStart(s) && Reaches(e, s, t)
    requires t.pc.Waiting? && t.sigterm
    ensures Enabled(t, Wait) && Apply(e, t, Wait).pc.Exiting?
  {
    var steps :| Run(e, s, steps) && After(e, s, steps) == t;
    RunKeepsTermInv(e, s, steps);
  }

  lemma StepKeepsSigterm(e: Environment, s: State, step: Step)
    requires e.sigtermStays && s.sigterm && Enabled(s, step) && !step.Start?
    ensures !step.Open? && Apply(e, s, step).sigterm
  {
  }

  /** And it opens no further transaction, if asking for the signal does not forget it. */
  lemma {:induction false} NoBatchAfterSigterm(e: Environment, s: State, steps: seq<Step>)
    requires e.sigtermStays && s.sigterm && Run(e, s, steps)
    requires forall step :: step in steps ==> !step.Start?
    ensures forall step :: step in steps ==> !step.Open?
    decreases |steps|
  {
    if steps != [] {
      assert steps[0] in steps && forall step :: step in steps[1..] ==> step in steps;
      StepKeepsSigterm(e, s, steps[0]);
      NoBatchAfterSigterm(e, Apply(e, s, steps[0]), steps[1..]);
      assert steps == [steps[0]] + steps[1..];
    }
  }

  // ----- Runs that lose one -----

  /** The worker comes up, finds the flag lowered, and sleeps. */
  lemma ComeUpAndSleep(e: Environment, s: State, t: State) returns (t': State)
    requires Reaches(e, s, t) && t.pc.Dead? && !t.flag && e.latchSetAtPublish
    ensures Reaches(e, s, t')
    ensures t' == t.(pc := Waiting, incarnation := t.incarnation + 1,
                     pointer := Some(t.incarnation + 1), latch := false, sigterm := false)
  {
    t' := ComeUp(e, s, t);
    t' := Then(e, s, t', Wait);
    t' := Then(e, s, t', ClaimFlag);
  }

  lemma ComeUp(e: Environment, s: State, t: State) returns (t': State)
    requires Reaches(e, s, t) && t.pc.Dead? && e.latchSetAtPublish
    ensures Reaches(e, s, t')
    ensures t' == t.(pc := Waiting, incarnation := t.incarnation + 1,
                     pointer := Some(t.incarnation + 1), latch := true, sigterm := false)
  {
    t' := Then(e, s, t, Start);
    t' := Then(e, s, t', RegisterHook);
    t' := Then(e, s, t', Publish);
  }

  /** Backend 0 enqueues a call, commits and runs its whole callback. */
  lemma EnqueueAndSignal(e: Environment, s: State, t: State) returns (t': State)
    requires Reaches(e, s, t) && At(t, 0) == FRESH
    ensures Reaches(e, s, t')
    ensures t' == Set(t.(nextId := t.nextId + 1, queue := t.queue + {t.nextId}, flag := true,
                         latch := t.latch || t.pointer == Some(t.incarnation)), 0, FRESH)
  {
    t' := Then(e, s, t, Enqueue(0));
    var u := t.(nextId := t.nextId + 1);
    var b := Backend(Working, true, {} + {t.nextId});
    assert t' == Set(u, 0, b);
    t' := Then(e, s, t', Commit(0));
    SetAgain(u, 0, b, Backend(Committed, true, {}));
    u := t.(nextId := t.nextId + 1, queue := t.queue + {t.nextId});
    t' := RunCallback(e, s, u, t');
  }

  lemma RunCallback(e: Environment, s: State, u: State, t: State) returns (t': State)
    requires Reaches(e, s, t) && t == Set(u, 0, Backend(Committed, true, {}))
    ensures Reaches(e, s, t')
    ensures t' == Set(u.(flag := true, latch := u.latch || u.pointer == Some(u.incarnation)), 0, FRESH)
  {
    t' := Then(e, s, t, SwapGuard(0));
    SetAgain(u, 0, Backend(Committed, true, {}), Backend(Signalling, false, {}));
    t' := Then(e, s, t', StoreFlag(0));
    var v := u.(flag := true);
    SetAgain(v, 0, Backend(Signalling, false, {}), Backend(Signalled, false, {}));
    t' := Then(e, s, t', ReadPointer(0));
    SetAgain(v, 0, Backend(Signalled, false, {}), Backend(Holding(u.pointer), false, {}));
    t' := Then(e, s, t', SetLatch(0));
    SetAgain(v, 0, Backend(Holding(u.pointer), false, {}), FRESH);
  }

  predicate Quiet(s: State) {
    s.backends == map[] || s.backends == map[0 := FRESH]
  }

  /** With no backend in its callback, nobody owes the sleeping worker a signal. */
  lemma Stranded(e: Environment, s: State, t: State)
    requires Reaches(e, s, t) && SleepsOverRows(t) && Quiet(t)
    ensures !NeverLost(e, s)
  {
    assert forall b :: At(t, b) == FRESH;
    assert !WakeUpOwed(t);
  }

  /** Rows left over from before the restart: the new flag is lowered, so nothing wakes the worker. */
  lemma LeftoverRowsSleep(e: Environment, s: State)
    requires ServerStart(s) && e.latchSetAtPublish && s.queue != {}
    ensures !NeverLost(e, s)
  {
    ReachesSelf(e, s);
    var t := ComeUpAndSleep(e, s, s);
    Stranded(e, s, t);
  }

  /** A callback that runs before the pointer is published finds no latch to set. */
  lemma UnsetLatchSleeps(e: Environment, s: State)
    requires ServerStart(s) && !e.latchSetAtPublish
    ensures !NeverLost(e, s)
  {
    ReachesSelf(e, s);
    var t := Then(e, s, s, Start);
    var n := t.nextId;
    t := EnqueueAndSignal(e, s, t);
    t := Then(e, s, t, RegisterHook);
    t := Then(e, s, t, Publish);
    assert n in t.queue;
    Stranded(e, s, t);
  }

  /** SIGTERM breaks the drain after the flag was claimed; forgotten, it does not end the process. */
  lemma ForgottenSigtermSleeps(e: Environment, s: State)
    requires ServerStart(s) && e.latchSetAtPublish && !e.sigtermStays
    ensures !NeverLost(e, s)
  {
    ReachesSelf(e, s);
    var t := ComeUpAndSleep(e, s, s);
    var n := t.nextId;
    t := EnqueueAndSignal(e, s, t);
    t := Then(e, s, t, Wait);
    t := Then(e, s, t, ClaimFlag);
    t := Then(e, s, t, Sigterm);
    t := Then(e, s, t, Break);
    t := Then(e, s, t, Wait);
    t := Then(e, s, t, ClaimFlag);
    assert n in t.queue;
    Stranded(e, s, t);
  }

  /** The worker dies in its wait and comes up again: its exit hook raised the flag, so it drains. */
  lemma RestartAndDrain(e: Environment, s: State, t: State) returns (t': State)
    requires Reaches(e, s, t) && t.pc.Waiting? && e.latchSetAtPublish
    ensures Reaches(e, s, t') && t'.pc == Draining && !t'.sigterm && !t'.flag
    ensures t'.queue == t.queue && t'.batch == t.batch && t'.nextId == t.nextId && t'.backends == t.backends
    ensures t'.pointer == Some(t'.incarnation)
  {
    t' := Then(e, s, t, Crash);
    t' := Then(e, s, t', ExitStoreFlag);
    t' := Then(e, s, t', ExitClearPointer);
    t' := ComeUp(e, s, t');
    t' := Then(e, s, t', Wait);
    t' := Then(e, s, t', ClaimFlag);
  }

  /** The lock wait takes the latch, and the transaction ends. */
  lemma SignalConsumed(e: Environment, s: State, t: State) returns (t': State)
    requires Reaches(e, s, t) && t.pc.Drained? && !e.latchKept
    ensures Reaches(e, s, t')
    ensures t'.pc.Waiting? && !t'.latch && t'.queue == t.queue && t'.backends == t.backends
  {
    t' := Then(e, s, t, LockWait);
    t' := Then(e, s, t', CommitEmpty);
  }

  /** The cleanup after an empty dequeue waits for a lock and consumes a signal that came meanwhile. */
  lemma ConsumedLatchSleeps(e: Environment, s: State)
    requires ServerStart(s) && e.latchSetAtPublish && !e.latchKept && s.queue == {}
    ensures !NeverLost(e, s)
  {
    ReachesSelf(e, s);
    var t := ComeUpAndSleep(e, s, s);
    t := RestartAndDrain(e, s, t);
    t := Then(e, s, t, Open);
    t := Then(e, s, t, Dequeue({}));
    var n := t.nextId;
    t := EnqueueAndSignal(e, s, t);
    assert n in t.queue;
    t := SignalConsumed(e, s, t);
    Stranded(e, s, t);
  }

  /** What it takes, exactly, for every server and every state of its tables at start. */
  lemma NeverLostExactlyWhen(e: Environment, s: State)
    requires ServerStart(s)
    ensures NeverLost(e, s) <==> Dependable(e) && s.queue == {}
  {
    if Dependable(e) && s.queue == {} {
      forall t | Reaches(e, s, t) ensures WakeUpOwed(t) {
        NoLostWakeUp(e, s, t);
      }
    } else if !e.latchSetAtPublish {
      UnsetLatchSleeps(e, s);
    } else if !e.sigtermStays {
      ForgottenSigtermSleeps(e, s);
    } else if !e.latchKept && s.queue == {} {
      ConsumedLatchSleeps(e, s);
    } else {
      LeftoverRowsSleep(e, s);
    }
  }
}
