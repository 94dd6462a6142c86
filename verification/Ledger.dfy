/**
 * Where every call id is, over every run: conservation, and the order in which an observer in
 * another session sees its status change.
 */
module Ledger {
  import opened CallTypes
  import opened Protocol

  datatype Place = Uncommitted(b: nat) | RolledBack | Queued | Finished | Expired

  predicate Holds(s: State, id: nat, p: Place) {
    match p
    case Uncommitted(b) => id in At(s, b).rows
    case RolledBack => id in s.rolledBack
    case Queued => id in s.queue
    case Finished => id in s.results
    case Expired => id in s.expired
  }

  ghost predicate Somewhere(s: State, id: nat) {
    exists p :: Holds(s, id, p)
  }

  /** Every id that was ever handed out is in exactly one place, and no other id is anywhere. */
  ghost predicate Conserved(s: State) {
    && (forall id: nat :: Somewhere(s, id) <==> 1 <= id < s.nextId)
    && (forall id, p, q :: Holds(s, id, p) && Holds(s, id, q) ==> p == q)
  }

  /** The rows that the open worker transaction has tentatively deleted. */
  function InFlight(pc: WorkerPc): set<nat> {
    match pc
    case Calling(_, taken) => taken
    case Persisted(_, outcomes) => outcomes.Keys
    case _ => {}
  }

  ghost predicate Inv(s: State) {
    && s.nextId >= 1
    && s.batch >= 1
    && Conserved(s)
    && InFlight(s.pc) <= s.queue
    && (s.pc.Calling? || s.pc.Persisted? ==> InFlight(s.pc) != {})
  }

  predicate Commits(step: Step) {
    step.CommitBatch? || step.CommitEmpty?
  }

  /** What the commit of a worker transaction does to each id: its own rows finish, old results go. */
  lemma CommitMoves(e: Environment, s: State, step: Step, id: nat)
    requires Inv(s) && Enabled(s, step) && Commits(step)
    ensures var t := Apply(e, s, step);
            && (id in InFlight(s.pc) ==> id in s.queue && id !in s.results && id !in s.expired)
            && (id in t.queue <==> id in s.queue && id !in InFlight(s.pc))
            && (id in t.results <==> || (id in s.results && s.results[id].created >= s.pc.start - s.ttl)
                                     || (id in InFlight(s.pc) && s.ttl >= 0))
            && (id in t.expired <==> || id in s.expired
                                     || (id in s.results && s.results[id].created < s.pc.start - s.ttl)
                                     || (id in InFlight(s.pc) && s.ttl < 0))
            && (id in t.results && id in s.results ==> t.results[id] == s.results[id])
            && (id in t.results && id in InFlight(s.pc) ==>
                  s.pc.Persisted? && t.results[id] == Stored(s.pc.outcomes[id], s.pc.start))
  {
    assert Holds(s, id, Queued) ==> !Holds(s, id, Finished) && !Holds(s, id, Expired);
  }

  /** Where a step takes an id that is at `p`. */
  ghost function Moved(s: State, step: Step, id: nat, p: Place): Place
    requires Enabled(s, step) && Holds(s, id, p)
  {
    match p
    case Uncommitted(b) =>
      if step == Commit(b) then Queued
      else if step == Abort(b) || (step.RollbackTo? && step.b == b && id !in step.kept) then RolledBack
      else p
    case Queued =>
      if step.CommitBatch? && id in InFlight(s.pc) then (if s.ttl >= 0 then Finished else Expired) else p
    case Finished =>
      if Commits(step) && s.results[id].created < s.pc.start - s.ttl then Expired else p
    case _ => p
  }

  lemma CommitForward(e: Environment, s: State, step: Step, id: nat, p: Place)
    requires Inv(s) && Enabled(s, step) && Commits(step) && Holds(s, id, p)
    ensures Holds(Apply(e, s, step), id, Moved(s, step, id, p))
  {
    CommitMoves(e, s, step, id);
  }

  lemma StepForward(e: Environment, s: State, step: Step, id: nat, p: Place)
    requires Inv(s) && Enabled(s, step) && Holds(s, id, p)
    ensures Holds(Apply(e, s, step), id, Moved(s, step, id, p))
  {
    if Commits(step) {
      CommitForward(e, s, step, id, p);
    }
  }

  lemma CommitBackward(e: Environment, s: State, step: Step, id: nat, q: Place) returns (p: Place)
    requires Inv(s) && Enabled(s, step) && Commits(step) && Holds(Apply(e, s, step), id, q)
    ensures Holds(s, id, p) && q == Moved(s, step, id, p)
  {
    CommitMoves(e, s, step, id);
    assert Holds(s, id, Queued) ==> !Holds(s, id, Finished);
    p := if Holds(s, id, q) then q else if id in InFlight(s.pc) then Queued else Finished;
  }

  lemma StepBackward(e: Environment, s: State, step: Step, id: nat, q: Place) returns (p: Place)
    requires Inv(s) && Enabled(s, step) && Holds(Apply(e, s, step), id, q)
    requires !(step.Enqueue? && id == s.nextId)
    ensures Holds(s, id, p) && q == Moved(s, step, id, p)
  {
    if Commits(step) {
      p := CommitBackward(e, s, step, id, q);
    } else {
      p := if Holds(s, id, q) then q else Uncommitted(step.b);
    }
  }

  lemma StepKeepsConserved(e: Environment, s: State, step: Step)
    requires Inv(s) && Enabled(s, step)
    ensures Conserved(Apply(e, s, step))
  {
    var t := Apply(e, s, step);
    forall id: nat
      ensures Somewhere(t, id) <==> 1 <= id < t.nextId
    {
      if step.Enqueue? && id == s.nextId {
        assert Holds(t, id, Uncommitted(step.b));
      } else {
        assert Somewhere(s, id) <==> 1 <= id < s.nextId;
        if p :| Holds(s, id, p) {
          StepForward(e, s, step, id, p);
        }
        if q :| Holds(t, id, q) {
          var _ := StepBackward(e, s, step, id, q);
        }
      }
    }
    forall id, p, q | Holds(t, id, p) && Holds(t, id, q)
      ensures p == q
    {
      if step.Enqueue? && id == s.nextId {
        assert !Somewhere(s, id);
        assert !Holds(s, id, p) && !Holds(s, id, q);
      } else {
        var _ := StepBackward(e, s, step, id, p);
        var _ := StepBackward(e, s, step, id, q);
      }
    }
  }

  lemma StepKeepsInv(e: Environment, s: State, step: Step)
    requires Inv(s) && Enabled(s, step)
    ensures Inv(Apply(e, s, step))
  {
    StepKeepsConserved(e, s, step);
    var t := Apply(e, s, step);
    forall id | id in InFlight(t.pc) ensures id in t.queue {}
  }

  lemma {:induction false} RunKeepsInv(e: Environment, s: State, steps: seq<Step>)
    requires Inv(s) && Run(e, s, steps)
    ensures Inv(After(e, s, steps))
    decreases |steps|
  {
    if steps != [] {
      StepKeepsInv(e, s, steps[0]);
      RunKeepsInv(e, Apply(e, s, steps[0]), steps[1..]);
    }
  }

  lemma ReachKeepsInv(e: Environment, s: State, t: State)
    requires Inv(s) && Reaches(e, s, t)
    ensures Inv(t)
  {
    var steps :| Run(e, s, steps) && After(e, s, steps) == t;
    RunKeepsInv(e, s, steps);
  }

  // ----- Conservation -----

  /** A new database: nothing was ever enqueued. */
  ghost predicate NewDatabase(s: State) {
    && ServerStart(s) && s.nextId == 1
    && s.queue == {} && s.results == map[] && s.rolledBack == {} && s.expired == {}
  }

  lemma NewDatabaseConserved(s: State)
    requires NewDatabase(s)
    ensures Conserved(s)
  {
    assert forall b :: At(s, b) == FRESH;
  }

  /**
   * Over every run, each id ever handed out is uncommitted in exactly one backend, rolled back,
   * queued, stored with one result, or expired. The rows of the open worker transaction are
   * still queued for everybody else, and storing their results cannot hit the primary key.
   */
  lemma Conservation(e: Environment, s: State, t: State)
    requires ServerStart(s) && Conserved(s) && Reaches(e, s, t)
    ensures Conserved(t)
    ensures InFlight(t.pc) <= t.queue
    ensures forall outcomes: map<nat, Outcome> :: t.pc.Calling? && outcomes.Keys == t.pc.taken ==>
                Enabled(t, Persist(outcomes))
  {
    ReachKeepsInv(e, s, t);
    forall outcomes: map<nat, Outcome> | t.pc.Calling? && outcomes.Keys == t.pc.taken
      ensures outcomes.Keys !! t.results.Keys
    {
      forall id | id in outcomes.Keys ensures id !in t.results.Keys {
        assert Holds(t, id, Queued) && (Holds(t, id, Finished) ==> Queued == Finished);
      }
    }
  }

  /** The server was shut down in `t` and starts again as `s`: tables and sequence stay, open transactions are gone. */
  ghost predicate Restarted(t: State, s: State) {
    && ServerStart(s)
    && s.nextId == t.nextId && s.queue == t.queue && s.results == t.results && s.expired == t.expired
    && forall id :: id in s.rolledBack <==> id in t.rolledBack || exists b :: id in At(t, b).rows
  }

  /** Where an id was before the restart that put it at `p`. */
  lemma PlaceBefore(t: State, s: State, id: nat, p: Place) returns (q: Place)
    requires Restarted(t, s) && Holds(s, id, p)
    ensures Holds(t, id, q) && p == if q.Uncommitted? then RolledBack else q
  {
    assert forall b :: At(s, b) == FRESH;
    if p.RolledBack? && id !in t.rolledBack {
      var b :| id in At(t, b).rows;
      q := Uncommitted(b);
    } else {
      q := p;
    }
  }

  lemma RestartConserves(t: State, s: State)
    requires Conserved(t) && Restarted(t, s)
    ensures Conserved(s)
  {
    forall id: nat
      ensures Somewhere(s, id) <==> Somewhere(t, id)
    {
      if q :| Holds(t, id, q) {
        assert Holds(s, id, if q.Uncommitted? then RolledBack else q);
      }
      if p :| Holds(s, id, p) {
        var _ := PlaceBefore(t, s, id, p);
      }
    }
    forall id, p, q | Holds(s, id, p) && Holds(s, id, q) ensures p == q {
      var _ := PlaceBefore(t, s, id, p);
      var _ := PlaceBefore(t, s, id, q);
    }
  }

  /** The server that started as `s` ran and was shut down, and then started as `next`. */
  ghost predicate Follows(s: State, next: State) {
    exists e, t :: Reaches(e, s, t) && Restarted(t, next)
  }

  /** The starts of one database's server: the first on a new database, each next after a clean shutdown. */
  ghost predicate Lifetimes(starts: seq<State>) {
    && starts != [] && NewDatabase(starts[0])
    && forall i :: 0 < i < |starts| ==> Follows(starts[i - 1], starts[i])
  }

  /** What the theorems about runs assume of a start is true of every start of every database. */
  lemma {:induction false} EveryStartConserved(starts: seq<State>, i: nat)
    requires Lifetimes(starts) && i < |starts|
    ensures ServerStart(starts[i]) && Conserved(starts[i])
  {
    if i == 0 {
      NewDatabaseConserved(starts[0]);
    } else {
      EveryStartConserved(starts, i - 1);
      assert Follows(starts[i - 1], starts[i]);
      var e, t :| Reaches(e, starts[i - 1], t) && Restarted(t, starts[i]);
      ReachKeepsInv(e, starts[i - 1], t);
      RestartConserves(t, starts[i]);
    }
  }

  /** So in the whole life of a database an id is in one place at most, also across restarts. */
  lemma ConservedForLife(e: Environment, starts: seq<State>, i: nat, t: State)
    requires Lifetimes(starts) && i < |starts| && Reaches(e, starts[i], t)
    ensures Conserved(t) && InFlight(t.pc) <= t.queue
  {
    EveryStartConserved(starts, i);
    Conservation(e, starts[i], t);
  }

  /** Whenever the worker dies, the rows it held are queued again and nothing else has moved. */
  lemma CrashReturnsRows(e: Environment, s: State, t: State)
    requires ServerStart(s) && Conserved(s) && Reaches(e, s, t) && Enabled(t, Crash)
    ensures var u := Apply(e, t, Crash);
            && InFlight(u.pc) == {}
            && (forall id, p :: Holds(u, id, p) <==> Holds(t, id, p))
            && forall id :: id in InFlight(t.pc) ==> Holds(u, id, Queued)
  {
    ReachKeepsInv(e, s, t);
  }

  // ----- What an observer sees -----

  datatype Observed = Absent | InQueue | Done(outcome: Outcome)

  /** `lookup` on one snapshot: the result table first, then the queue (src/queue.rs:118-176). */
  function Observe(s: State, id: nat): Observed {
    Across(s, s, id)
  }

  /** `lookup` when its second SELECT reads a later snapshot than its first. */
  function Across(first: State, second: State, id: nat): Observed {
    if id in first.results then Done(first.results[id].outcome)
    else if id in second.queue then InQueue
    else Absent
  }

  function Stage(s: State, id: nat): nat {
    if id in s.rolledBack || id in s.expired then 3
    else if id in s.results then 2
    else if id in s.queue then 1
    else 0
  }

  /** No id ever goes back, and a stored result stays as it is while it is there. */
  ghost predicate Advances(s: State, t: State, id: nat) {
    && Stage(s, id) <= Stage(t, id)
    && (id in s.results && id in t.results ==> t.results[id] == s.results[id])
    && (id in s.results ==> id in t.results || id in t.expired)
    && (id in s.expired ==> id in t.expired)
    && (id in t.rolledBack && Stage(s, id) >= 1 ==> id in s.rolledBack)
  }

  /** Only uncommitted rows are rolled back. */
  lemma StepRollsBack(e: Environment, s: State, step: Step, id: nat)
    requires Inv(s) && Enabled(s, step) && Stage(s, id) >= 1 && id in Apply(e, s, step).rolledBack
    ensures id in s.rolledBack
  {
    assert Holds(s, id, if id in s.queue then Queued else if id in s.results then Finished
                        else if id in s.expired then Expired else RolledBack);
    assert Somewhere(s, id);
    var p := StepBackward(e, s, step, id, RolledBack);
  }

  lemma StepAdvances(e: Environment, s: State, step: Step, id: nat)
    requires Inv(s) && Enabled(s, step)
    ensures Advances(s, Apply(e, s, step), id)
  {
    if Commits(step) {
      CommitMoves(e, s, step, id);
    }
    if p :| Holds(s, id, p) {
      StepForward(e, s, step, id, p);
    }
    assert forall p, q :: Holds(s, id, p) && Holds(s, id, q) ==> p == q;
    StepKeepsInv(e, s, step);
    var t := Apply(e, s, step);
    assert forall p, q :: Holds(t, id, p) && Holds(t, id, q) ==> p == q;
    if id in t.rolledBack && Stage(s, id) >= 1 {
      StepRollsBack(e, s, step, id);
    }
  }

  lemma {:induction false} RunAdvances(e: Environment, s: State, steps: seq<Step>, id: nat)
    requires Inv(s) && Run(e, s, steps)
    ensures Advances(s, After(e, s, steps), id)
    decreases |steps|
  {
    if steps != [] {
      var t := Apply(e, s, steps[0]);
      StepAdvances(e, s, steps[0], id);
      StepKeepsInv(e, s, steps[0]);
      RunAdvances(e, t, steps[1..], id);
      RunKeepsInv(e, t, steps[1..]);
      OnePlace(After(e, s, steps), id);
    }
  }

  lemma ReachAdvances(e: Environment, s: State, t: State, id: nat)
    requires Inv(s) && Reaches(e, s, t)
    ensures Advances(s, t, id) && Inv(t)
  {
    var steps :| Run(e, s, steps) && After(e, s, steps) == t;
    RunAdvances(e, s, steps, id);
    RunKeepsInv(e, s, steps);
  }

  /**
   * Three looks at one id, in any run: nothing but PENDING or a final answer follows PENDING, one
   * fixed outcome, then not found, and not found for ever once something had been seen.
   */
  lemma ObservedInOrder(e: Environment, s: State, t: State, u: State, v: State, id: nat)
    requires ServerStart(s) && Conserved(s)
    requires Reaches(e, s, t) && Reaches(e, t, u) && Reaches(e, u, v)
    ensures Observe(t, id).Done? ==> Observe(u, id) == Observe(t, id) || Observe(u, id) == Absent
    ensures Observe(t, id) != Absent && Observe(u, id) == Absent ==> Observe(v, id) == Absent
    ensures id in InFlight(t.pc) ==> Observe(t, id) == InQueue
  {
    ReachKeepsInv(e, s, t);
    ReachAdvances(e, t, u, id);
    ReachAdvances(e, u, v, id);
    OnePlace(t, id);
    OnePlace(u, id);
    OnePlace(v, id);
  }

  lemma OnePlace(s: State, id: nat)
    requires Conserved(s)
    ensures id in s.queue ==> id !in s.results && id !in s.expired && id !in s.rolledBack
    ensures id in s.results ==> id !in s.expired && id !in s.rolledBack
  {
    assert Holds(s, id, Queued) ==> !Holds(s, id, Finished) && !Holds(s, id, Expired) && !Holds(s, id, RolledBack);
    assert Holds(s, id, Finished) ==> !Holds(s, id, Expired) && !Holds(s, id, RolledBack);
  }

  /** A rolled-back enqueue is never seen by anybody, at any time. */
  lemma RolledBackNeverSeen(e: Environment, s: State, t: State, u: State, id: nat)
    requires ServerStart(s) && Conserved(s) && Reaches(e, s, t) && Reaches(e, t, u)
    requires id in t.rolledBack
    ensures Observe(t, id) == Absent && Observe(u, id) == Absent
  {
    ReachKeepsInv(e, s, t);
    ReachAdvances(e, t, u, id);
    OnePlace(t, id);
    OnePlace(u, id);
  }
}
