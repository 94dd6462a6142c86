/**
 * User-supplied protos in one process: the staging area, the registry, compilation and the
 * registry lookup of a call (src/proto_staging.rs, src/proto_registry.rs, src/proto.rs:100-151,
 * src/lib.rs:203-265, src/call.rs:67-84).
 */
module ProtoRegistry {
  import opened Prelude
  import Text

  datatype Service = Service(name: string, file: string)

  /** A descriptor pool, by its services and its files; `File` stands for a file's contents. */
  datatype File = File(text: string)
  datatype Pool = Pool(services: seq<Service>, files: map<string, File>)

  datatype Origin = UserStaged(filename: string, source: string) | Reflection(endpoint: string)

  datatype Registered = Registered(pool: Pool, origin: Origin)

  // ----- Well-known types -----

  /**
   * `backfill_wkts`: add each bundled file whose name is not taken. `accepts` says whether the pool
   * takes a file that conflicts with nothing by name; a refusal fails the whole operation.
   */
  method BackfillWkts(files: map<string, File>, bundled: seq<(string, File)>,
                      accepts: (map<string, File>, string) -> bool)
    returns (r: Result<map<string, File>, GrpcError>)
    ensures r.Ok? ==>
              && (forall name :: name in files ==> name in r.value && r.value[name] == files[name])
              && (forall i :: 0 <= i < |bundled| ==> bundled[i].0 in r.value)
              && (forall name :: name in r.value && name !in files ==> (name, r.value[name]) in bundled)
    ensures (forall i :: 0 <= i < |bundled| ==> bundled[i].0 in files) ==> r == Ok(files)
    ensures (forall m: map<string, File>, name :: accepts(m, name)) ==> r.Ok?
  {
    var pool := files;
    for i := 0 to |bundled|
      invariant forall name :: name in files ==> name in pool && pool[name] == files[name]
      invariant forall j :: 0 <= j < i ==> bundled[j].0 in pool
      invariant forall name :: name in pool && name !in files ==> (name, pool[name]) in bundled
      invariant (forall j :: 0 <= j < i ==> bundled[j].0 in files) ==> pool == files
    {
      var (name, file) := bundled[i];
      if name in pool {
        continue;
      }
      if !accepts(pool, name) {
        return Err(ProtoCompile);
      }
      assert bundled[i] == (name, file);
      pool := pool[name := file];
    }
    return Ok(pool);
  }

  // ----- Compilation -----

  /** Where a service's source is found: the staged file of that name, or nothing. */
  function SourceOf(staged: map<string, string>, file: string): string {
    if file in staged then staged[file] else ""
  }

  function EntryFor(pool: Pool, staged: map<string, string>, service: Service): Registered {
    Registered(pool, UserStaged(service.file, SourceOf(staged, service.file)))
  }

  /** What must be registered for a compiled service: the pool, its file's name and that file's staged text. */
  predicate IsEntryFor(entry: Registered, pool: Pool, staged: map<string, string>, service: Service) {
    && entry.pool == pool
    && entry.origin.UserStaged?
    && entry.origin.filename == service.file
    && (service.file in staged ==> entry.origin.source == staged[service.file])
    && (service.file !in staged ==> entry.origin.source == "")
  }

  /** The registry after the compiled services went in one by one. */
  function RegisterAll(registry: map<string, Registered>, pool: Pool, staged: map<string, string>,
                       services: seq<Service>): map<string, Registered>
  {
    if services == [] then registry
    else
      var last := services[|services| - 1];
      RegisterAll(registry, pool, staged, services[..|services| - 1])[last.name := EntryFor(pool, staged, last)]
  }

  predicate Defines(services: seq<Service>, name: string) {
    exists i :: 0 <= i < |services| && services[i].name == name
  }

  /** A pool has one service of each name. */
  predicate UniqueNames(services: seq<Service>) {
    forall i, j :: 0 <= i < j < |services| ==> services[i].name != services[j].name
  }

  lemma {:induction false} RegisteredAt(registry: map<string, Registered>, pool: Pool,
                                        staged: map<string, string>, services: seq<Service>, i: nat)
    requires UniqueNames(services) && i < |services|
    ensures var r := RegisterAll(registry, pool, staged, services);
            services[i].name in r && IsEntryFor(r[services[i].name], pool, staged, services[i])
  {
    var init, last := services[..|services| - 1], services[|services| - 1];
    if i < |init| {
      assert init[i] == services[i] && services[i].name != services[|services| - 1].name;
      RegisteredAt(registry, pool, staged, init, i);
    }
  }

  lemma {:induction false} NotRegistered(registry: map<string, Registered>, pool: Pool,
                                         staged: map<string, string>, services: seq<Service>, name: string)
    requires !Defines(services, name)
    ensures var r := RegisterAll(registry, pool, staged, services);
            (name in r <==> name in registry) && (name in r ==> r[name] == registry[name])
  {
    if services != [] {
      var init := services[..|services| - 1];
      assert services[|services| - 1].name != name;
      forall i | 0 <= i < |init| ensures init[i].name != name {
        assert services[i].name != name;
      }
      NotRegistered(registry, pool, staged, init, name);
    }
  }

  /** Exactly the compiled services are overridden, each with its own file's staged source. */
  lemma RegisterAllOverrides(registry: map<string, Registered>, pool: Pool,
                             staged: map<string, string>, services: seq<Service>)
    requires UniqueNames(services)
    ensures var r := RegisterAll(registry, pool, staged, services);
            && (forall i :: 0 <= i < |services| ==>
                  services[i].name in r && IsEntryFor(r[services[i].name], pool, staged, services[i]))
            && (forall name :: !Defines(services, name) ==>
                  (name in r <==> name in registry) && (name in r ==> r[name] == registry[name]))
  {
    forall i | 0 <= i < |services| {
      RegisteredAt(registry, pool, staged, services, i);
    }
    forall name | !Defines(services, name) {
      NotRegistered(registry, pool, staged, services, name);
    }
  }

  // ----- One process, one statement at a time -----

  datatype Store = Store(registry: map<string, Registered>, staged: map<string, string>)

  /** The statements. What the compiler and the reflection server answer is part of them. */
  datatype Op =
    | Stage(filename: string, source: string)
    | Unstage(filename: string)
    | UnstageAll
    | Compile(compiled: Result<Pool, GrpcError>)
    | Unregister(service: string)
    | UnregisterAll
    | Call(service: string, endpoint: string, useReflection: bool, fetched: Result<Pool, GrpcError>)

  predicate StageInputOk(filename: string, source: string) {
    Text.Trim(filename) != "" && Text.Trim(source) != ""
  }

  function Next(s: Store, op: Op): Store {
    match op
    case Stage(filename, source) =>
      if StageInputOk(filename, source) then s.(staged := s.staged[filename := source]) else s
    case Unstage(filename) => s.(staged := s.staged - {filename})
    case UnstageAll => s.(staged := map[])
    case Compile(compiled) =>
      if s.staged == map[] || compiled.Err? || compiled.value.services == [] then s
      else Store(RegisterAll(s.registry, compiled.value, s.staged, compiled.value.services), map[])
    case Unregister(service) => s.(registry := s.registry - {service})
    case UnregisterAll => s.(registry := map[])
    case Call(service, endpoint, useReflection, fetched) =>
      if service in s.registry || !useReflection || fetched.Err? then s
      else s.(registry := s.registry[service := Registered(fetched.value, Reflection(endpoint))])
  }

  /** The pool that a call gets. */
  function Answer(s: Store, service: string, useReflection: bool, fetched: Result<Pool, GrpcError>)
    : Result<Pool, GrpcError>
  {
    if service in s.registry then Ok(s.registry[service].pool)
    else if useReflection then fetched
    else Err(Proto)
  }

  class Process {
    var registry: map<string, Registered>
    var staged: map<string, string>

    constructor ()
      ensures registry == map[] && staged == map[]
    {
      registry, staged := map[], map[];
    }

    function Now(): Store
      reads this
    {
      Store(registry, staged)
    }

    method StageFile(filename: string, source: string) returns (r: Result<(), GrpcError>)
      modifies this`staged
      ensures Now() == Next(old(Now()), Stage(filename, source))
      ensures r.Ok? <==> !Text.AllWhite(filename) && !Text.AllWhite(source)
    {
      Text.TrimBlank(filename);
      Text.TrimBlank(source);
      if Text.Trim(filename) == "" || Text.Trim(source) == "" {
        return Err(ProtoCompile);
      }
      staged := staged[filename := source];
      return Ok(());
    }

    method UnstageFile(filename: string) returns (present: bool)
      modifies this`staged
      ensures Now() == Next(old(Now()), Unstage(filename)) && present == (filename in old(staged))
    {
      present := filename in staged;
      staged := staged - {filename};
    }

    method ClearStaged()
      modifies this`staged
      ensures Now() == Next(old(Now()), UnstageAll)
    {
      staged := map[];
    }

    method RemoveService(service: string) returns (present: bool)
      modifies this`registry
      ensures Now() == Next(old(Now()), Unregister(service)) && present == (service in old(registry))
    {
      present := service in registry;
      registry := registry - {service};
    }

    method ClearRegistry()
      modifies this`registry
      ensures Now() == Next(old(Now()), UnregisterAll)
    {
      registry := map[];
    }

    /** `grpc_proto_compile`: snapshot, compile, insert service by service, clear the staging area. */
    method CompileStaged(compiled: Result<Pool, GrpcError>) returns (r: Result<(), GrpcError>)
      modifies this
      ensures Now() == Next(old(Now()), Compile(compiled))
      ensures r.Err? ==> Now() == old(Now())
      ensures r.Ok? <==> old(staged) != map[] && compiled.Ok? && compiled.value.services != []
      ensures r.Ok? && UniqueNames(compiled.value.services) ==>
                && staged == map[]
                && forall service :: service in compiled.value.services ==>
                     && service.name in registry
                     && IsEntryFor(registry[service.name], compiled.value, old(staged), service)
    {
      var snapshot := staged;
      if snapshot == map[] {
        return Err(ProtoCompile);
      }
      if compiled.Err? {
        return Err(compiled.error);
      }
      var pool := compiled.value;
      if pool.services == [] {
        return Err(ProtoCompile);
      }
      ghost var before := registry;
      for i := 0 to |pool.services|
        invariant staged == snapshot
        invariant registry == RegisterAll(before, pool, snapshot, pool.services[..i])
      {
        var service := pool.services[i];
        assert pool.services[..i + 1][..i] == pool.services[..i];
        registry := registry[service.name := EntryFor(pool, snapshot, service)];
      }
      assert pool.services[..|pool.services|] == pool.services;
      if UniqueNames(pool.services) {
        RegisterAllOverrides(before, pool, snapshot, pool.services);
      }
      staged := map[];
      return Ok(());
    }

    /** The registry lookup of a call that nothing else runs beside. */
    method ResolvePool(service: string, endpoint: string, useReflection: bool, fetched: Result<Pool, GrpcError>)
      returns (r: Result<Pool, GrpcError>)
      modifies this`registry
      ensures Now() == Next(old(Now()), Op.Call(service, endpoint, useReflection, fetched))
      ensures r == Answer(old(Now()), service, useReflection, fetched)
      ensures r.Ok? ==> service in registry && registry[service].pool == r.value
      ensures forall name :: name in old(registry) ==> name in registry && registry[name] == old(registry)[name]
      ensures r.Err? || !useReflection ==> registry == old(registry)
    {
      if service in registry {
        return Ok(registry[service].pool);
      }
      if !useReflection {
        return Err(Proto);
      }
      if fetched.Ok? {
        registry := registry[service := Registered(fetched.value, Reflection(endpoint))];
      }
      return fetched;
    }
  }

  /** Only this key, and nothing of the other keys. */
  ghost predicate Only<T>(before: map<string, T>, after: map<string, T>, key: string) {
    forall k :: k != key ==> (k in after <==> k in before) && (k in after ==> after[k] == before[k])
  }

  /** What the small statements do: to one key or to a whole map, and to nothing else. */
  lemma StatementsDo(s: Store, name: string, text: string)
    ensures var t := Next(s, Stage(name, text));
            if Text.AllWhite(name) || Text.AllWhite(text) then t == s
            else t.registry == s.registry && Only(s.staged, t.staged, name)
                 && name in t.staged && t.staged[name] == text
    ensures var t := Next(s, Unstage(name));
            t.registry == s.registry && Only(s.staged, t.staged, name) && name !in t.staged
    ensures var t := Next(s, Unregister(name));
            t.staged == s.staged && Only(s.registry, t.registry, name) && name !in t.registry
    ensures Next(s, UnstageAll).registry == s.registry && |Next(s, UnstageAll).staged| == 0
    ensures Next(s, UnregisterAll).staged == s.staged && |Next(s, UnregisterAll).registry| == 0
  {
    Text.TrimBlank(name);
    Text.TrimBlank(text);
  }

  /** What one call does and gets: the three cases of the lookup. */
  lemma CallDoes(s: Store, call: Op)
    requires call.Call?
    ensures var t := Next(s, call);
            var answer := Answer(s, call.service, call.useReflection, call.fetched);
            && t.staged == s.staged && Only(s.registry, t.registry, call.service)
            && (call.service in s.registry ==> t == s && answer == Ok(s.registry[call.service].pool))
            && (call.service !in s.registry && !call.useReflection ==> t == s && answer == Err(Proto))
            && (call.service !in s.registry && call.useReflection && call.fetched.Err? ==>
                  t == s && answer == Err(call.fetched.error))
            && (call.service !in s.registry && call.useReflection && call.fetched.Ok? ==>
                  && answer == Ok(call.fetched.value)
                  && call.service in t.registry
                  && t.registry[call.service] == Registered(call.fetched.value, Reflection(call.endpoint)))
  {
  }

  // ----- Whole sessions -----

  function RunOps(s: Store, ops: seq<Op>): Store
    decreases ops
  {
    if ops == [] then s else RunOps(Next(s, ops[0]), ops[1..])
  }

  /** The statements that may touch what a user registered under `name`. */
  predicate Replaces(op: Op, name: string) {
    match op
    case Compile(Ok(pool)) => Defines(pool.services, name)
    case Unregister(service) => service == name
    case UnregisterAll => true
    case _ => false
  }

  predicate PoolsUnique(ops: seq<Op>) {
    forall op :: op in ops && op.Compile? && op.compiled.Ok? ==> UniqueNames(op.compiled.value.services)
  }

  lemma OpKeepsEntry(s: Store, op: Op, name: string)
    requires name in s.registry && !Replaces(op, name)
    requires op.Compile? && op.compiled.Ok? ==> UniqueNames(op.compiled.value.services)
    ensures name in Next(s, op).registry && Next(s, op).registry[name] == s.registry[name]
  {
    if op.Compile? && op.compiled.Ok? {
      RegisterAllOverrides(s.registry, op.compiled.value, s.staged, op.compiled.value.services);
    }
  }

  /**
   * Precedence, along every session: what is registered under a name, and so what the user staged,
   * stays until the user compiles that service again or unregisters it. No call replaces it.
   */
  lemma {:induction false} EntryStays(s: Store, ops: seq<Op>, name: string)
    requires name in s.registry && PoolsUnique(ops)
    requires forall op :: op in ops ==> !Replaces(op, name)
    ensures name in RunOps(s, ops).registry && RunOps(s, ops).registry[name] == s.registry[name]
    decreases ops
  {
    if ops != [] {
      assert ops[0] in ops && forall op :: op in ops[1..] ==> op in ops;
      OpKeepsEntry(s, ops[0], name);
      EntryStays(Next(s, ops[0]), ops[1..], name);
    }
  }

  /**
   * What a call was answered, every later call of that service is answered too, whatever its
   * endpoint and options and whatever the server says by then, until the service is compiled or
   * unregistered.
   */
  lemma AnswersStay(s: Store, call: Op, ops: seq<Op>, useReflection: bool, fetched: Result<Pool, GrpcError>)
    requires call.Call? && Answer(s, call.service, call.useReflection, call.fetched).Ok?
    requires PoolsUnique(ops) && forall op :: op in ops ==> !Replaces(op, call.service)
    ensures Answer(RunOps(Next(s, call), ops), call.service, useReflection, fetched)
         == Answer(s, call.service, call.useReflection, call.fetched)
  {
    EntryStays(Next(s, call), ops, call.service);
  }

  /** Calls write missing keys only, as reflection entries; without reflection they write nothing. */
  lemma {:induction false} CallsOnlyAdd(s: Store, ops: seq<Op>)
    requires forall op :: op in ops ==> op.Call?
    ensures var t := RunOps(s, ops);
            && t.staged == s.staged
            && (forall name :: name in s.registry ==> name in t.registry && t.registry[name] == s.registry[name])
            && (forall name :: name in t.registry && name !in s.registry ==> t.registry[name].origin.Reflection?)
            && ((forall op :: op in ops ==> !op.useReflection) ==> t == s)
    decreases ops
  {
    if ops != [] {
      assert ops[0] in ops && forall op :: op in ops[1..] ==> op in ops;
      CallsOnlyAdd(Next(s, ops[0]), ops[1..]);
    }
  }

  /**
   * Compiling is all or nothing. A failure leaves both maps as they were; success overrides exactly
   * the compiled services, each with the source staged for its file, and empties the staging area.
   */
  lemma CompileAllOrNothing(s: Store, compiled: Result<Pool, GrpcError>)
    requires compiled.Ok? ==> UniqueNames(compiled.value.services)
    ensures var t := Next(s, Compile(compiled));
            if s.staged != map[] && compiled.Ok? && compiled.value.services != [] then
              && t.staged == map[]
              && (forall service :: service in compiled.value.services ==>
                    service.name in t.registry
                    && t.registry[service.name].pool == compiled.value
                    && t.registry[service.name].origin.UserStaged?
                    && t.registry[service.name].origin.filename == service.file
                    && t.registry[service.name].origin.source
                       == if service.file in s.staged then s.staged[service.file] else "")
              && (forall name :: !Defines(compiled.value.services, name) ==>
                    (name in t.registry <==> name in s.registry)
                    && (name in t.registry ==> t.registry[name] == s.registry[name]))
            else t == s
  {
    if compiled.Ok? {
      RegisterAllOverrides(s.registry, compiled.value, s.staged, compiled.value.services);
    }
  }
}
