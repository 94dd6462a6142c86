/**
 * The same lookup in the worker process, where many calls run at once and each can suspend between
 * its miss and its insert (src/call.rs:67-84). No SQL function runs there, so nothing is staged,
 * compiled or unregistered.
 */
module WorkerRegistry {
  import opened Prelude
  import opened ProtoRegistry

  datatype Task =
    | Fetching(service: string, endpoint: string)
    | Fetched(service: string, endpoint: string, pool: Pool)
    | Resolved(pool: Pool)
    | Failed

  datatype State = State(registry: map<string, Registered>, tasks: map<nat, Task>)

  datatype Step =
    | Begin(task: nat, service: string, endpoint: string, useReflection: bool)
    | Fetch(task: nat, answer: Result<Pool, GrpcError>)
    | Insert(task: nat)

  predicate Enabled(s: State, step: Step) {
    match step
    case Begin(task, _, _, _) => task !in s.tasks
    case Fetch(task, _) => task in s.tasks && s.tasks[task].Fetching?
    case Insert(task) => task in s.tasks && s.tasks[task].Fetched?
  }

  function Apply(s: State, step: Step): State
    requires Enabled(s, step)
  {
    match step
    case Begin(task, service, endpoint, useReflection) =>
      s.(tasks := s.tasks[task :=
        if service in s.registry then Resolved(s.registry[service].pool)
        else if useReflection then Fetching(service, endpoint)
        else Failed])
    case Fetch(task, Ok(pool)) =>
      s.(tasks := s.tasks[task := Fetched(s.tasks[task].service, s.tasks[task].endpoint, pool)])
    case Fetch(task, Err(_)) => s.(tasks := s.tasks[task := Failed])
    case Insert(task) =>
      var Fetched(service, endpoint, pool) := s.tasks[task];
      State(s.registry[service := Registered(pool, Reflection(endpoint))], s.tasks[task := Resolved(pool)])
  }

  predicate Run(s: State, steps: seq<Step>)
    decreases |steps|
  {
    steps == [] || (Enabled(s, steps[0]) && Run(Apply(s, steps[0]), steps[1..]))
  }

  function After(s: State, steps: seq<Step>): State
    requires Run(s, steps)
    decreases |steps|
  {
    if steps == [] then s else After(Apply(s, steps[0]), steps[1..])
  }

  const EMPTY := State(map[], map[])

  /** Everything in the worker's registry came from reflection: a user's staged proto is never there. */
  lemma {:induction false} NoUserEntries(s: State, steps: seq<Step>)
    requires Run(s, steps) && forall name :: name in s.registry ==> s.registry[name].origin.Reflection?
    ensures forall name :: name in After(s, steps).registry ==> After(s, steps).registry[name].origin.Reflection?
    decreases |steps|
  {
    if steps != [] {
      NoUserEntries(Apply(s, steps[0]), steps[1..]);
    }
  }

  /** Some task inserted `service` during these steps. */
  ghost predicate InsertedDuring(s: State, steps: seq<Step>, service: string)
    requires Run(s, steps)
    decreases |steps|
  {
    && steps != []
    && (|| (steps[0].Insert? && s.tasks[steps[0].task].service == service)
        || InsertedDuring(Apply(s, steps[0]), steps[1..], service))
  }

  lemma {:induction false} PresentExactlyWhen(s: State, steps: seq<Step>, service: string)
    requires Run(s, steps)
    ensures service in After(s, steps).registry <==> service in s.registry || InsertedDuring(s, steps, service)
    decreases |steps|
  {
    if steps != [] {
      PresentExactlyWhen(Apply(s, steps[0]), steps[1..], service);
    }
  }

  lemma {:induction false} StillWorking(s: State, steps: seq<Step>, task: nat)
    requires Run(s, steps) && task in s.tasks
    requires task in After(s, steps).tasks && After(s, steps).tasks[task].Fetched?
    ensures s.tasks[task].Fetching? || s.tasks[task].Fetched?
    ensures s.tasks[task].service == After(s, steps).tasks[task].service
    decreases |steps|
  {
    if steps != [] {
      StillWorking(Apply(s, steps[0]), steps[1..], task);
    }
  }

  /**
   * "Reflection writes only missing keys" fails under interleaving: the insert of a task that
   * missed overwrites an entry exactly when another task has inserted the same service between
   * that miss and this insert.
   */
  lemma OverwritesExactlyWhen(s: State, begin: Step, steps: seq<Step>)
    requires begin.Begin? && Enabled(s, begin) && begin.service !in s.registry && begin.useReflection
    requires Run(Apply(s, begin), steps)
    requires Enabled(After(Apply(s, begin), steps), Insert(begin.task))
    ensures var t := After(Apply(s, begin), steps);
            && t.tasks[begin.task].service == begin.service
            && (begin.service in t.registry <==> InsertedDuring(Apply(s, begin), steps, begin.service))
            && Apply(t, Insert(begin.task)).registry[begin.service]
               == Registered(t.tasks[begin.task].pool, Reflection(t.tasks[begin.task].endpoint))
  {
    StillWorking(Apply(s, begin), steps, begin.task);
    PresentExactlyWhen(Apply(s, begin), steps, begin.service);
  }

  /** No task is ever stuck, and the server may answer anything: only an ended task has no step left. */
  lemma NotStuck(s: State, task: nat, answer: Result<Pool, GrpcError>)
    requires task in s.tasks
    ensures match s.tasks[task]
            case Fetching(_, _) => Enabled(s, Fetch(task, answer))
            case Fetched(_, _, _) => Enabled(s, Insert(task))
            case _ => !Enabled(s, Fetch(task, answer)) && !Enabled(s, Insert(task))
  {
  }

  /** What a task ended with it keeps. */
  lemma {:induction false} EndStays(s: State, steps: seq<Step>, task: nat)
    requires Run(s, steps) && task in s.tasks && (s.tasks[task].Resolved? || s.tasks[task].Failed?)
    ensures task in After(s, steps).tasks && After(s, steps).tasks[task] == s.tasks[task]
    decreases |steps|
  {
    if steps != [] {
      EndStays(Apply(s, steps[0]), steps[1..], task);
    }
  }

  /**
   * A task that begins while its service is registered is resolved with that pool, whatever the
   * others do; one that begins on a miss with reflection off has failed.
   */
  lemma HitResolves(s: State, begin: Step, steps: seq<Step>)
    requires begin.Begin? && Enabled(s, begin) && Run(Apply(s, begin), steps)
    ensures var t := After(Apply(s, begin), steps);
            && (begin.service in s.registry ==>
                  begin.task in t.tasks && t.tasks[begin.task] == Resolved(s.registry[begin.service].pool))
            && (begin.service !in s.registry && !begin.useReflection ==>
                  begin.task in t.tasks && t.tasks[begin.task].Failed?)
            && (begin.service !in s.registry && begin.useReflection ==>
                  Apply(s, begin).tasks[begin.task] == Fetching(begin.service, begin.endpoint))
  {
    if begin.service in s.registry || !begin.useReflection {
      EndStays(Apply(s, begin), steps, begin.task);
    }
  }

  /** One whose fetch fails has failed, and one whose fetch succeeds holds that pool until it inserts it. */
  lemma {:induction false} FetchDecides(s: State, fetch: Step, steps: seq<Step>)
    requires fetch.Fetch? && Enabled(s, fetch) && Run(Apply(s, fetch), steps)
    ensures var t := After(Apply(s, fetch), steps);
            && fetch.task in t.tasks
            && match fetch.answer
               case Err(_) => t.tasks[fetch.task].Failed?
               case Ok(pool) =>
                 if Insert(fetch.task) in steps then t.tasks[fetch.task] == Resolved(pool)
                 else t.tasks[fetch.task] == Fetched(s.tasks[fetch.task].service, s.tasks[fetch.task].endpoint, pool)
  {
    if fetch.answer.Err? {
      EndStays(Apply(s, fetch), steps, fetch.task);
    } else {
      HeldUntilInsert(Apply(s, fetch), steps, fetch.task);
    }
  }

  lemma {:induction false} HeldUntilInsert(s: State, steps: seq<Step>, task: nat)
    requires Run(s, steps) && task in s.tasks && s.tasks[task].Fetched?
    ensures task in After(s, steps).tasks
    ensures After(s, steps).tasks[task] == if Insert(task) in steps then Resolved(s.tasks[task].pool) else s.tasks[task]
    decreases |steps|
  {
    if steps != [] {
      assert steps == [steps[0]] + steps[1..];
      if steps[0] == Insert(task) {
        EndStays(Apply(s, steps[0]), steps[1..], task);
      } else {
        HeldUntilInsert(Apply(s, steps[0]), steps[1..], task);
      }
    }
  }

  /** Two tasks for one service at two endpoints: the entry of the first is replaced by the second's. */
  lemma EntryReplaced(a: Pool, b: Pool)
    ensures var steps := [Begin(0, "S", "a:1", true), Begin(1, "S", "b:1", true),
                          Fetch(0, Ok(a)), Fetch(1, Ok(b)), Insert(0)];
            && Run(EMPTY, steps)
            && After(EMPTY, steps).registry == map["S" := Registered(a, Reflection("a:1"))]
            && Enabled(After(EMPTY, steps), Insert(1))
            && Apply(After(EMPTY, steps), Insert(1)).registry == map["S" := Registered(b, Reflection("b:1"))]
  {
    var steps := [Begin(0, "S", "a:1", true), Begin(1, "S", "b:1", true), Fetch(0, Ok(a)), Fetch(1, Ok(b)), Insert(0)];
    var s1 := Apply(EMPTY, steps[0]);
    var s2 := Apply(s1, steps[1]);
    var s3 := Apply(s2, steps[2]);
    var s4 := Apply(s3, steps[3]);
    var s5 := Apply(s4, steps[4]);
    assert steps[4..] == [steps[4]] && steps[3..] == [steps[3]] + steps[4..];
    assert Run(s4, steps[4..]) && After(s4, steps[4..]) == s5;
    assert steps[3..][1..] == steps[4..] && steps[2..][1..] == steps[3..];
    assert Run(s2, steps[2..]) && After(s2, steps[2..]) == s5;
    assert steps[1..][1..] == steps[2..];
    assert Run(s1, steps[1..]) && After(s1, steps[1..]) == s5;
  }
}
