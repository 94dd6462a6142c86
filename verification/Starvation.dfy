/** No row starves: how many batches can go before a row that is in the queue. */
module Starvation {
  import opened Batches
  import opened Protocol
  import opened Ledger

  /** Rows that the open worker transaction has not taken. */
  function Untaken(s: State): set<nat> {
    s.queue - InFlight(s.pc)
  }

  /** The smaller ids that can still be taken before `i`: queued and not taken, or uncommitted. */
  function Ahead(s: State, i: nat): set<nat> {
    set j | 1 <= j < i && j < s.nextId && Stage(s, j) <= 1 && j !in InFlight(s.pc)
  }

  /** In a reachable state these are exactly the queued and the uncommitted smaller ids. */
  lemma AheadIsQueuedOrUncommitted(s: State, i: nat, j: nat)
    requires Inv(s) && i in s.queue
    ensures j in Ahead(s, i) <==> j < i && (j in Untaken(s) || exists b :: j in At(s, b).rows)
  {
    assert Holds(s, i, Queued) && Somewhere(s, i);
    assert Somewhere(s, j) <==> 1 <= j < s.nextId;
    OnePlace(s, j);
    if b :| j in At(s, b).rows {
      assert Holds(s, j, Uncommitted(b));
      assert forall p :: Holds(s, j, p) ==> p == Uncommitted(b);
      assert !Holds(s, j, Queued) && !Holds(s, j, Finished) && !Holds(s, j, Expired) && !Holds(s, j, RolledBack);
    } else {
      assert j in s.queue <==> Holds(s, j, Queued);
      assert Stage(s, j) >= 2 ==> Holds(s, j, RolledBack) || Holds(s, j, Expired) || Holds(s, j, Finished);
      assert forall p :: Holds(s, j, p) ==> !p.Uncommitted?;
    }
  }

  function Dequeues(steps: seq<Step>): nat {
    if steps == [] then 0 else (if steps[0].Dequeue? then 1 else 0) + Dequeues(steps[1..])
  }

  ghost predicate NoCrash(steps: seq<Step>) {
    forall step :: step in steps ==> !step.Crash?
  }

  /** No reload on the way sets a batch size below `size`. */
  ghost predicate KeepsBatch(steps: seq<Step>, size: nat) {
    forall step :: step in steps && step.Reload? ==> step.batch >= size
  }

  /** Nobody gets in ahead of a row that is already visible. */
  lemma StepAhead(e: Environment, s: State, step: Step, i: nat)
    requires Inv(s) && Enabled(s, step) && !step.Crash?
    requires i in Untaken(s)
    ensures Ahead(Apply(e, s, step), i) <= Ahead(s, i)
  {
    var t := Apply(e, s, step);
    assert Holds(s, i, Queued) && Somewhere(s, i);
    forall j | j in Ahead(t, i) ensures j in Ahead(s, i) {
      StepAdvances(e, s, step, j);
      if Commits(step) {
        CommitMoves(e, s, step, j);
      }
    }
  }

  /** A batch that passes a visible row over takes a full batch of the rows ahead of it. */
  lemma DequeuePasses(e: Environment, s: State, taken: set<nat>, i: nat)
    requires Inv(s) && Enabled(s, Dequeue(taken))
    requires i in Untaken(s) && i in Untaken(Apply(e, s, Dequeue(taken)))
    ensures |Ahead(Apply(e, s, Dequeue(taken)), i)| + s.batch <= |Ahead(s, i)|
  {
    var t := Apply(e, s, Dequeue(taken));
    assert InFlight(t.pc) == taken;
    if |taken| < s.batch {
      ShortBatchIsAll(s.queue, s.batch, taken);
    }
    forall j | j in taken ensures j in Ahead(s, i) {
      assert Holds(s, j, Queued) && Somewhere(s, j);
      OnePlace(s, j);
    }
    assert Ahead(t, i) == Ahead(s, i) - taken;
    assert |Ahead(s, i) - taken| == |Ahead(s, i)| - |taken|;
  }

  /** Without a crash a row that was taken is never put back. */
  lemma StepStaysTaken(e: Environment, s: State, step: Step, i: nat)
    requires Inv(s) && Enabled(s, step) && !step.Crash?
    requires i !in Untaken(s) && Stage(s, i) >= 1
    ensures i !in Untaken(Apply(e, s, step)) && Stage(Apply(e, s, step), i) >= 1
  {
    StepAdvances(e, s, step, i);
    OnePlace(s, i);
    StepKeepsInv(e, s, step);
    OnePlace(Apply(e, s, step), i);
    if Commits(step) {
      CommitMoves(e, s, step, i);
    }
  }

  lemma {:induction false} RunStaysTaken(e: Environment, s: State, steps: seq<Step>, i: nat)
    requires Inv(s) && Run(e, s, steps) && NoCrash(steps)
    requires i !in Untaken(s) && Stage(s, i) >= 1
    ensures i !in Untaken(After(e, s, steps))
    decreases |steps|
  {
    if steps != [] {
      assert steps[0] in steps && forall step :: step in steps[1..] ==> step in steps;
      StepStaysTaken(e, s, steps[0], i);
      StepKeepsInv(e, s, steps[0]);
      RunStaysTaken(e, Apply(e, s, steps[0]), steps[1..], i);
    }
  }

  /** Each step either leaves the rows ahead of `i` or, if it is a dequeue, takes a batch of them. */
  lemma StepPays(e: Environment, s: State, step: Step, i: nat)
    requires Inv(s) && Enabled(s, step) && !step.Crash?
    requires i in Untaken(s) && i in Untaken(Apply(e, s, step))
    ensures |Ahead(Apply(e, s, step), i)| + (if step.Dequeue? then s.batch else 0) <= |Ahead(s, i)|
  {
    if step.Dequeue? {
      DequeuePasses(e, s, step.taken, i);
    } else {
      var t := Apply(e, s, step);
      StepAhead(e, s, step, i);
      assert |Ahead(s, i)| == |Ahead(t, i)| + |Ahead(s, i) - Ahead(t, i)|;
    }
  }

  lemma StepKeepsBatch(e: Environment, s: State, step: Step, size: nat)
    requires Enabled(s, step) && s.batch >= size && (step.Reload? ==> step.batch >= size)
    ensures Apply(e, s, step).batch >= size
  {
  }

  /** What the dequeues of a run must have taken, at `size` rows a batch. */
  function Rows(steps: seq<Step>, size: nat): nat {
    if steps == [] then 0 else (if steps[0].Dequeue? then size else 0) + Rows(steps[1..], size)
  }

  lemma {:induction false} RowsAre(steps: seq<Step>, size: nat)
    ensures Rows(steps, size) == Dequeues(steps) * size
  {
    if steps != [] {
      RowsAre(steps[1..], size);
    }
  }

  lemma StepGoesOn(e: Environment, s: State, step: Step, i: nat, size: nat)
    requires Inv(s) && Enabled(s, step) && i in Untaken(s)
    requires s.batch >= size && (step.Reload? ==> step.batch >= size)
    ensures Inv(Apply(e, s, step)) && Apply(e, s, step).batch >= size && Stage(Apply(e, s, step), i) >= 1
  {
    StepKeepsInv(e, s, step);
    StepAdvances(e, s, step, i);
    StepKeepsBatch(e, s, step, size);
  }

  /** As long as `i` has not been taken, every batch so far was paid for by `size` rows ahead of it. */
  lemma {:induction false} BatchesBefore(e: Environment, s: State, steps: seq<Step>, i: nat, size: nat)
    requires Inv(s) && Run(e, s, steps) && NoCrash(steps)
    requires s.batch >= size && KeepsBatch(steps, size)
    requires i in Untaken(s)
    ensures i in Untaken(After(e, s, steps)) ==> Rows(steps, size) <= |Ahead(s, i)|
    decreases |steps|
  {
    if steps != [] {
      var step, rest := steps[0], steps[1..];
      assert step in steps && forall x :: x in rest ==> x in steps;
      StepGoesOn(e, s, step, i, size);
      if i in Untaken(Apply(e, s, step)) {
        BatchesBefore(e, Apply(e, s, step), rest, i, size);
        StepPays(e, s, step, i);
      } else {
        RunStaysTaken(e, Apply(e, s, step), rest, i);
      }
    }
  }

  /**
   * The bound. Row `i` is visible in `s` with `k` smaller ids queued or uncommitted. However later
   * commits interleave, if the worker does not crash then at most `k / size` batches are dequeued
   * before the one that takes `i`.
   */
  lemma {:induction false} NoStarvation(e: Environment, start: State, s: State, steps: seq<Step>, i: nat, size: nat)
    requires ServerStart(start) && Conserved(start) && Reaches(e, start, s)
    requires Run(e, s, steps) && NoCrash(steps)
    requires 1 <= size <= s.batch && KeepsBatch(steps, size)
    requires i in Untaken(s)
    ensures i in Untaken(After(e, s, steps)) ==> Dequeues(steps) <= |Ahead(s, i)| / size
  {
    ReachKeepsInv(e, start, s);
    if i in Untaken(After(e, s, steps)) {
      BatchesBefore(e, s, steps, i, size);
      RowsAre(steps, size);
      DivideBound(Dequeues(steps), size, |Ahead(s, i)|);
    }
  }

  lemma DivideBound(n: nat, size: nat, k: nat)
    requires size >= 1 && n * size <= k
    ensures n <= k / size
  {
    var q := k / size;
    assert k < q * size + size;
    Positive(q + 1 - n, size);
  }
}
