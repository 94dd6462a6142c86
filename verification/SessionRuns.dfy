/** The client backend's code is the protocol's client steps (src/lib.rs:74-124). */
module SessionRuns {
  import opened Prelude
  import opened Protocol
  import C = CallAsync
  import S = Session
  import W = WakeUp

  /** A backend's transaction and the shared memory, as its code sees them. */
  function OpenedOf(s: State, b: nat): C.Opened {
    C.Opened(s.nextId, At(s, b).rows, At(s, b).guard)
  }

  function SignalOf(s: State, b: nat): S.Signal {
    S.Signal(At(s, b).guard, s.flag, if s.pointer == Some(s.incarnation) then Some(s.latch) else None)
  }

  /** An accepted `grpc_call_async` is an Enqueue step, and a refused one is none. */
  lemma EnqueueRefines(e: Environment, s: State, b: nat)
    requires At(s, b).phase.Working?
    ensures Enabled(s, Enqueue(b))
    ensures OpenedOf(Apply(e, s, Enqueue(b)), b) == C.AfterCall(OpenedOf(s, b), true)
    ensures C.AfterCall(OpenedOf(s, b), false) == OpenedOf(s, b)
  {
  }

  /** The callback after the flag is stored: the last two accesses. */
  lemma FromFlag(e: Environment, s: State, b: nat)
    requires At(s, b).phase.Signalled?
    ensures var t := W.FinishCallback(e, s, b);
            SignalOf(t, b) == SignalOf(s, b).(latch := if SignalOf(s, b).latch.Some? then Some(true) else None)
  {
    var t := Apply(e, s, ReadPointer(b));
    var u := Apply(e, t, SetLatch(b));
    assert W.FinishCallback(e, t, b) == W.FinishCallback(e, u, b) == u;
  }

  lemma FromSwap(e: Environment, s: State, b: nat)
    requires At(s, b).phase.Signalling? && !At(s, b).guard
    ensures var t := W.FinishCallback(e, s, b);
            SignalOf(t, b) == S.Signal(false, true, if SignalOf(s, b).latch.Some? then Some(true) else None)
  {
    FromFlag(e, Apply(e, s, StoreFlag(b)), b);
  }

  /** The whole callback. */
  lemma CallbackRefines(e: Environment, s: State, b: nat)
    requires At(s, b).phase.Committed?
    ensures SignalOf(W.FinishCallback(e, s, b), b) == S.AfterCallback(SignalOf(s, b), S.Commit)
  {
    var t := Apply(e, s, SwapGuard(b));
    if At(s, b).guard {
      FromSwap(e, t, b);
    } else {
      assert W.FinishCallback(e, t, b) == t;
    }
  }

  /** A commit and the callback after it, one shared-memory access at a time. */
  lemma CommitRefines(e: Environment, s: State, b: nat) returns (t: State)
    requires At(s, b).phase.Working?
    ensures Reaches(e, s, t) && At(t, b).phase.Working? && t.queue == s.queue + At(s, b).rows
    ensures SignalOf(t, b) == S.AfterCallback(SignalOf(s, b), S.Commit)
  {
    ReachesSelf(e, s);
    var u := Then(e, s, s, Commit(b));
    t := W.FinishCallback(e, u, b);
    SelfWithin(e, u, Alone(b));
    W.FinishAlone(e, u, u, b);
    ReachesThrough(e, s, u, t);
    CallbackRefines(e, u, b);
  }

  /** An abort lowers the guard and signals nobody. */
  lemma AbortRefines(e: Environment, s: State, b: nat)
    requires At(s, b).phase.Working?
    ensures Enabled(s, Abort(b))
    ensures SignalOf(Apply(e, s, Abort(b)), b) == S.AfterCallback(SignalOf(s, b), S.XactEvent.Abort)
  {
  }

  // ----- Whole transactions -----

  /** What calls, each accepted or refused, do to the session one after the other. */
  function AfterCalls(o: C.Opened, accepted: seq<bool>): C.Opened
    decreases accepted
  {
    if accepted == [] then o else AfterCalls(C.AfterCall(o, accepted[0]), accepted[1..])
  }

  /** Any number of calls is a run of the protocol, invisible to everybody else. */
  lemma {:induction false} CallsRefine(e: Environment, s: State, b: nat, accepted: seq<bool>) returns (t: State)
    requires At(s, b).phase.Working?
    ensures Reaches(e, s, t) && At(t, b).phase.Working?
    ensures OpenedOf(t, b) == AfterCalls(OpenedOf(s, b), accepted)
    ensures t.queue == s.queue && SignalOf(t, b) == SignalOf(s, b).(guard := At(t, b).guard)
    decreases accepted
  {
    ReachesSelf(e, s);
    if accepted == [] {
      t := s;
    } else if accepted[0] {
      EnqueueRefines(e, s, b);
      var u := Then(e, s, s, Enqueue(b));
      t := CallsRefine(e, u, b, accepted[1..]);
      ReachesThrough(e, s, u, t);
    } else {
      EnqueueRefines(e, s, b);
      t := CallsRefine(e, s, b, accepted[1..]);
    }
  }

  function Accepted(accepted: seq<bool>): nat {
    if accepted == [] then 0 else (if accepted[0] then 1 else 0) + Accepted(accepted[1..])
  }

  lemma {:induction false} AfterCallsAre(o: C.Opened, accepted: seq<bool>)
    ensures AfterCalls(o, accepted).guard == (o.guard || Accepted(accepted) > 0)
    ensures AfterCalls(o, accepted).nextId == o.nextId + Accepted(accepted)
    ensures forall id :: id in AfterCalls(o, accepted).rows <==>
              id in o.rows || o.nextId <= id < o.nextId + Accepted(accepted)
    decreases accepted
  {
    if accepted != [] {
      AfterCallsAre(C.AfterCall(o, accepted[0]), accepted[1..]);
    }
  }

  /**
   * A whole transaction of `grpc_call_async` calls with its callback is a run of the protocol. It
   * makes exactly the new ids visible if it commits, none if not; and it raises the flag and sets
   * a published latch exactly if it commits with some call accepted.
   */
  lemma TransactionRefines(e: Environment, s: State, b: nat, accepted: seq<bool>, commits: bool) returns (t: State)
    requires At(s, b) == FRESH
    ensures Reaches(e, s, t) && At(t, b).phase.Working? && !At(t, b).guard
    ensures var signals := commits && Accepted(accepted) > 0;
            && (forall id :: id in t.queue <==>
                  id in s.queue || (commits && s.nextId <= id < s.nextId + Accepted(accepted)))
            && t.flag == (s.flag || signals)
            && SignalOf(t, b).latch
               == if SignalOf(s, b).latch.Some? && signals then Some(true) else SignalOf(s, b).latch
  {
    var u := CallsRefine(e, s, b, accepted);
    AfterCallsAre(OpenedOf(s, b), accepted);
    if commits {
      t := CommitRefines(e, u, b);
      ReachesThrough(e, s, u, t);
      assert t.queue == s.queue + OpenedOf(u, b).rows;
      assert SignalOf(t, b).flag == t.flag;
    } else {
      AbortRefines(e, u, b);
      t := Then(e, s, u, Abort(b));
      assert SignalOf(t, b).flag == t.flag;
    }
  }

  /** Rolling back to a savepoint is no transaction event: guard, flag and latch stay. */
  lemma RollbackRefines(e: Environment, s: State, b: nat, kept: set<nat>)
    requires Enabled(s, RollbackTo(b, kept))
    ensures SignalOf(Apply(e, s, RollbackTo(b, kept)), b) == SignalOf(s, b)
    ensures SignalOf(s, b).guard == S.GuardAfter(SignalOf(s, b).guard, S.RolledBackTo(|kept|))
  {
  }

  lemma EnqueueAndRollBack(e: Environment, s: State, b: nat) returns (u: State)
    requires At(s, b) == FRESH
    ensures Reaches(e, s, u) && At(u, b) == Backend(Working, true, {}) && u.queue == s.queue
    ensures SignalOf(u, b) == SignalOf(s, b).(guard := true)
  {
    ReachesSelf(e, s);
    u := Then(e, s, s, Enqueue(b));
    RollbackRefines(e, u, b, {});
    u := Then(e, s, u, RollbackTo(b, {}));
  }

  /** So a transaction that rolls back all it enqueued raises the flag when it commits, over an unchanged queue. */
  lemma SavepointWakes(e: Environment, s: State, b: nat) returns (t: State)
    requires At(s, b) == FRESH
    ensures Reaches(e, s, t) && t.queue == s.queue && t.flag && At(t, b).phase.Working?
    ensures SignalOf(s, b).latch.Some? ==> SignalOf(t, b).latch == Some(true)
  {
    var u := EnqueueAndRollBack(e, s, b);
    t := CommitRefines(e, u, b);
    ReachesThrough(e, s, u, t);
    assert t.queue == s.queue + {} && SignalOf(t, b).flag == t.flag;
  }
}
