/**
 * One call on its two paths: run in the backend by `grpc_call`, or validated and queued by
 * `grpc_call_async` and run later by the worker from the stored row (src/lib.rs:44-101, 172-201,
 * src/call.rs:15-144, 186-217).
 */
module CallAsync {
  import opened Prelude
  import opened Json
  import opened CallTypes
  import opened MethodPath
  import opened Options
  import opened ProtoRegistry
  import C = ChannelCache
  import M = Metadata
  import Session
  import Text
  import W = WorkerRegistry

  const DEFAULT_TIMEOUT := 30_000

  /** What a user passes to either function. */
  datatype Input = Input(
    endpoint: string,
    path: string,
    request: Value,
    metadata: Option<Value>,
    options: Option<Value>)

  /** What `call_async` is called with. */
  datatype CallArgs = CallArgs(
    endpoint: string,
    path: string,
    request: Value,
    useReflection: bool,
    metadata: Option<Value>,
    tls: Option<TlsConfig>,
    maxDecode: Option<int>,
    maxEncode: Option<int>)

  function ConfigOf(options: Option<Value>): Result<OptionsConfig, GrpcError> {
    if options.None? then Ok(DEFAULT) else ParseOptions(options.value)
  }

  function TimeoutOf(cfg: OptionsConfig): int {
    if cfg.timeoutMs.Some? then cfg.timeoutMs.value else DEFAULT_TIMEOUT
  }

  function ReflectionOf(cfg: OptionsConfig): bool {
    cfg.useReflection.Some? ==> cfg.useReflection.value
  }

  // ----- Rust's casts between integer widths -----

  /** `u64 as i32` keeps the low 32 bits; `i32 as u64` extends the sign. */
  function AsI32(n: int): int {
    var low := n % 0x1_0000_0000;
    if low > I32_MAX then low - 0x1_0000_0000 else low
  }

  function AsU64(n: int): int {
    n % 0x1_0000_0000_0000_0000
  }

  // ----- The world outside, and what a process remembers -----

  /** Everything the two paths ask others. Both are compared in one and the same world. */
  datatype World = World(
    connect: C.Key -> Result<(), GrpcError>,
    fetch: (CallArgs, string) -> Result<Pool, GrpcError>,
    prepare: (CallArgs, Pool) -> Result<(), GrpcError>,   // resolve the method, encode the request
    rules: M.Rules,                                       // of the header library
    respond: (CallArgs, Pool) -> Result<Value, GrpcError>,
    late: (CallArgs, Option<bool>, Option<Pool>, int) -> bool,
    text: GrpcError -> string,
    lateText: int -> string)

  /**
   * Registry and channel cache are static maps, so every process has its own. For each cached
   * channel: whether it can still be used. A backend drops the runtime of a call when the call
   * ends, the worker keeps one, and the channel stays in the map (src/call.rs:28-32,
   * src/worker.rs:36); what that does to the channel is up to the client library.
   */
  datatype Memory = Memory(registry: map<string, Registered>, channels: map<C.Key, bool>)

  function Found(registry: map<string, Registered>, service: string): Option<Pool> {
    if service in registry then Some(registry[service].pool) else None
  }

  function ServiceOf(path: string): string {
    match ParseMethod(path) case Ok((service, _)) => service case Err(_) => ""
  }

  /** The cached channel for a call, if there is one: whether it can be used. */
  function Cached(m: Memory, endpoint: string, tls: Option<TlsConfig>): Option<bool> {
    match C.KeyOf(endpoint, tls)
    case Err(_) => None
    case Ok(key) => if key in m.channels then Some(m.channels[key]) else None
  }

  /** The same, as far as the call notices: one that fails before it uses the channel does not. */
  function Met(m: Memory, args: CallArgs): Option<bool> {
    var cached := Cached(m, args.endpoint, args.tls);
    if cached.Some? && Found(m.registry, ServiceOf(args.path)).None? && !args.useReflection then Some(true) else cached
  }

  /** Reflection over a channel that cannot be used is an error of reflection. */
  function PoolFor(w: World, m: Memory, usable: bool, args: CallArgs, service: string): Result<Pool, GrpcError> {
    match Found(m.registry, service)
    case Some(pool) => Ok(pool)
    case None => if args.useReflection && usable then w.fetch(args, service) else Err(Proto)
  }

  /** From the pool to the response; the metadata is looked at last, before the request goes out. */
  function Exchange(w: World, usable: bool, args: CallArgs, pool: Pool): Result<Value, GrpcError> {
    match w.prepare(args, pool)
    case Err(e) => Err(e)
    case Ok(_) =>
      if !usable then Err(Connection)
      else if !M.Acceptable(args.metadata, w.rules) then Err(GrpcError.Call)
      else w.respond(args, pool)
  }

  /** `call_async`, up to what it does to the registry and the cache. */
  function Perform(w: World, m: Memory, args: CallArgs): Result<Value, GrpcError> {
    match ParseMethod(args.path)
    case Err(e) => Err(e)
    case Ok((service, _)) =>
      match C.KeyOf(args.endpoint, args.tls)
      case Err(e) => Err(e)
      case Ok(key) =>
        match if key in m.channels then Ok(()) else w.connect(key)
        case Err(e) => Err(e)
        case Ok(_) =>
          var usable := key in m.channels ==> m.channels[key];
          match PoolFor(w, m, usable, args, service)
          case Err(e) => Err(e)
          case Ok(pool) => Exchange(w, usable, args, pool)
  }

  // ----- The synchronous path -----

  datatype Reply = Returned(result: Result<Value, GrpcError>) | TimedOut(millis: int)

  function Timed(w: World, m: Memory, args: CallArgs, timeout: int): Reply {
    if w.late(args, Met(m, args), Found(m.registry, ServiceOf(args.path)), timeout)
    then TimedOut(timeout)
    else Returned(Perform(w, m, args))
  }

  function ArgsOf(input: Input, cfg: OptionsConfig): CallArgs {
    CallArgs(input.endpoint, input.path, input.request, ReflectionOf(cfg), input.metadata, cfg.tls,
             cfg.maxDecode, cfg.maxEncode)
  }

  function SyncReply(w: World, m: Memory, input: Input): Reply {
    match ConfigOf(input.options)
    case Err(e) => Returned(Err(e))
    case Ok(cfg) => Timed(w, m, ArgsOf(input, cfg), TimeoutOf(cfg))
  }

  // ----- The asynchronous path -----

  /** `grpc_call_async` up to its INSERT: the row, or the error that it raises. */
  function Enqueue(id: nat, input: Input): Result<QueueRow, GrpcError> {
    if ValidateEndpoint(input.endpoint).Err? then Err(Connection)
    else if ParseMethod(input.path).Err? then Err(Proto)
    else match ConfigOf(input.options)
         case Err(e) => Err(e)
         case Ok(cfg) =>
           if TimeoutOf(cfg) > I32_MAX then Err(Connection)
           else Ok(QueueRow(id, input.endpoint, input.path, input.request, input.metadata, input.options,
                            AsI32(TimeoutOf(cfg))))
  }

  /** The state that enqueueing changes: the sequence, the open transaction's rows, the guard. */
  datatype Opened = Opened(nextId: nat, rows: set<nat>, guard: bool)

  function AfterCall(o: Opened, accepted: bool): Opened {
    if accepted then Opened(o.nextId + 1, o.rows + {o.nextId}, true) else o
  }

  /** A backend, as far as one transaction of it enqueues calls. */
  class Enqueuer {
    var nextId: nat                      // the bigserial sequence
    var inserted: map<nat, QueueRow>     // rows of the open transaction
    const client: Session.Client

    constructor (client: Session.Client, nextId: nat)
      ensures this.client == client && this.nextId == nextId && inserted == map[]
    {
      this.client, this.nextId, inserted := client, nextId, map[];
    }

    function Now(): Opened
      reads this, client
    {
      Opened(nextId, inserted.Keys, client.guard)
    }

    /** `grpc_call_async`: an input that is refused leaves no trace, not even in the sequence. */
    method GrpcCallAsync(input: Input) returns (r: Result<nat, GrpcError>)
      modifies `nextId, `inserted, client`guard
      ensures r.Ok? <==> Enqueue(old(nextId), input).Ok?
      ensures Now() == AfterCall(old(Now()), r.Ok?)
      ensures r.Ok? ==>
                && r.value == old(nextId) && nextId == old(nextId) + 1
                && inserted == old(inserted)[r.value := Enqueue(r.value, input).value]
                && client.guard
      ensures r.Err? ==>
                Enqueue(old(nextId), input) == Err(r.error) &&
                nextId == old(nextId) && inserted == old(inserted) && client.guard == old(client.guard)
    {
      if ValidateEndpoint(input.endpoint).Err? {
        return Err(Connection);
      }
      if ParseMethod(input.path).Err? {
        return Err(Proto);
      }
      var cfg := DEFAULT;
      if input.options.Some? {
        var parsed := Parse(input.options.value);
        if parsed.Err? {
          return Err(parsed.error);
        }
        cfg := parsed.value;
      }
      var timeout := if cfg.timeoutMs.Some? then cfg.timeoutMs.value else DEFAULT_TIMEOUT;
      if timeout > I32_MAX {
        return Err(Connection);
      }
      var id := nextId;
      nextId := nextId + 1;
      inserted := inserted[id := QueueRow(id, input.endpoint, input.path, input.request, input.metadata,
                                          input.options, AsI32(timeout))];
      client.RaiseGuard();
      return Ok(id);
    }
  }

  /** How the worker records a reply: an error as its message, a timeout in words of its own. */
  function AsOutcome(w: World, reply: Reply): Outcome {
    match reply
    case Returned(Ok(v)) => Success(v)
    case Returned(Err(e)) => Error(w.text(e))
    case TimedOut(ms) => Error(w.lateText(ms))
  }

  /** `call_async_row`: the options are parsed again, the stored timeout is taken as it is. */
  function CallAsyncRow(w: World, m: Memory, row: QueueRow): CallResult {
    match ConfigOf(row.options)
    case Err(e) => CallResult(row.id, Error(w.text(e)))
    case Ok(cfg) =>
      var timeout := AsU64(row.timeoutMs);
      var args := CallArgs(row.endpoint, row.path, row.request, ReflectionOf(cfg), row.metadata, cfg.tls,
                           cfg.maxDecode, cfg.maxEncode);
      CallResult(row.id, AsOutcome(w, Timed(w, m, args, timeout)))
  }

  // ----- What is accepted -----

  lemma ConfigInRange(options: Option<Value>)
    requires ConfigOf(options).Ok?
    ensures 1 <= TimeoutOf(ConfigOf(options).value) <= I64_MAX
  {
    if options.Some? {
      ParsedInRange(options.value);
    }
  }

  /** With the options of `input`, the timeout is one that fits the column. */
  predicate TimeoutFits(input: Input) {
    ConfigOf(input.options).Ok? ==> TimeoutOf(ConfigOf(input.options).value) <= I32_MAX
  }

  /** The metadata is absent, null or an object: the first thing that is asked of it. */
  predicate MetadataShaped(input: Input) {
    input.metadata.None? || input.metadata.value.Null? || input.metadata.value.Obj?
  }

  /**
   * Some world lets the synchronous call complete. What the libraries make of an address, a name
   * or a header text is part of the world; what this code decides by itself is not.
   */
  ghost predicate CanSucceed(input: Input) {
    exists w: World, m: Memory :: SyncReply(w, m, input).Returned? && SyncReply(w, m, input).result.Ok?
  }

  /** The synchronous call reports an error before it asks anybody. */
  predicate SyncRefuses(input: Input) {
    || ConfigOf(input.options).Err?
    || ParseMethod(input.path).Err?
    || ValidateEndpoint(input.endpoint).Err?
  }

  /** A world where everything works at once, and one process's memory for it. */
  function Willing(): World {
    World(_ => Ok(()), (_, _) => Ok(Pool([], map[])), (_, _) => Ok(()), M.Rules(_ => true, _ => true, _ => ""),
          (_, _) => Ok(Null), (_, _, _, _) => false, _ => "", _ => "")
  }

  function Knowing(service: string): Memory {
    Memory(map[service := Registered(Pool([], map[]), Reflection(""))], map[])
  }

  lemma CanSucceedExactlyWhen(input: Input)
    ensures CanSucceed(input) <==> !SyncRefuses(input) && MetadataShaped(input)
  {
    if !SyncRefuses(input) && MetadataShaped(input) {
      var cfg := ConfigOf(input.options).value;
      var m := Knowing(ServiceOf(input.path));
      assert M.Acceptable(input.metadata, Willing().rules);
      assert Perform(Willing(), m, ArgsOf(input, cfg)) == Ok(Null);
      assert SyncReply(Willing(), m, input) == Returned(Ok(Null));
    }
  }

  /**
   * "Same rules as the sync path" holds up to two exceptions, one on either side: a timeout over
   * the column's range is refused here only, and metadata is not looked at here at all.
   */
  lemma AcceptedExactlyWhen(id: nat, input: Input)
    ensures CanSucceed(input) && TimeoutFits(input) <==> Enqueue(id, input).Ok? && MetadataShaped(input)
    ensures Enqueue(id, input).Ok? <==>
              && !Text.AllWhite(input.endpoint) && Text.NoSlash(input.endpoint)
              && (exists i: nat :: SplitsAt(input.path, i))
              && (input.options.Some? ==>
                    exists cfg :: Reads(input.options.value, cfg)
                                  && (cfg.timeoutMs.Some? ==> cfg.timeoutMs.value <= 2147483647))
  {
    CanSucceedExactlyWhen(input);
    ValidateEndpointAccepts(input.endpoint);
    ParseMethodAccepts(input.path);
    if input.options.Some? {
      forall cfg {
        ParsesExactly(input.options.value, cfg);
      }
    }
  }

  /** What a refused input is told: about the endpoint first, then the path, then the options. */
  lemma RefusedWith(id: nat, input: Input)
    requires Enqueue(id, input).Err?
    ensures Enqueue(id, input).error
         == if !Text.AllWhite(input.endpoint) && Text.NoSlash(input.endpoint)
               && (forall i: nat :: !SplitsAt(input.path, i))
            then Proto else Connection
  {
    ValidateEndpointAccepts(input.endpoint);
    ParseMethodAccepts(input.path);
  }

  /** So the paths accept the same input exactly when it falls under neither exception, or both refuse. */
  lemma SameRulesExactlyWhen(id: nat, input: Input)
    ensures (CanSucceed(input) <==> Enqueue(id, input).Ok?)
            <==> SyncRefuses(input) || (MetadataShaped(input) <==> TimeoutFits(input))
  {
    CanSucceedExactlyWhen(input);
  }

  /** An options blob that one path takes and the other refuses: a timeout of 2^31 milliseconds. */
  lemma LongTimeoutOnlySync(input: Input, id: nat)
    requires !SyncRefuses(input.(options := None)) && MetadataShaped(input)
    requires input.options == Some(Obj([("timeout_ms", Num(Integer(I32_MAX + 1)))]))
    ensures CanSucceed(input) && Enqueue(id, input).Err?
  {
    var value := input.options.value;
    assert Get(value.fields, "timeout_ms") == Some(Num(Integer(I32_MAX + 1)));
    forall key | key in ACCEPTED_KEYS && key != "timeout_ms" ensures !Present(value, key) {
      assert Get(value.fields[1..], key) == None;
    }
    assert Acceptable(value);
    CanSucceedExactlyWhen(input);
  }

  /** Metadata of the wrong shape is queued all the same, and its row fails in every world. */
  lemma BadMetadataOnlyFails(w: World, m: Memory, input: Input, id: nat)
    requires Enqueue(id, input).Ok? && !MetadataShaped(input)
    ensures !CanSucceed(input)
    ensures CallAsyncRow(w, m, Enqueue(id, input).value).outcome.Error?
  {
    CanSucceedExactlyWhen(input);
  }

  /** For instance metadata that is a JSON string. */
  lemma StringMetadataQueued(id: nat)
    ensures var input := Input("h:1", "S/M", Null, Some(Str("x")), None);
            Enqueue(id, input).Ok? && !CanSucceed(input)
  {
    var input := Input("h:1", "S/M", Null, Some(Str("x")), None);
    assert "S/M"[..1] == "S" && "S/M"[2..] == "M";
    assert !Text.IsWhite("S"[0]) && !Text.IsWhite("M"[0]) && !Text.IsWhite("h:1"[0]);
    assert SplitsAt("S/M", 1);
    AcceptedExactlyWhen(id, input);
    CanSucceedExactlyWhen(input);
  }

  // ----- What is executed -----

  /** Each cast keeps the value up to the width of its target, and stays in the target's range. */
  lemma CastsWrap(n: int)
    ensures -2147483648 <= AsI32(n) <= 2147483647 && (n - AsI32(n)) % 4294967296 == 0
    ensures 0 <= AsU64(n) < 18446744073709551616 && (n - AsU64(n)) % 18446744073709551616 == 0
  {
  }

  /** The casts of a stored timeout cancel out. */
  lemma CastsCancel(n: int)
    requires 1 <= n <= I32_MAX
    ensures AsU64(AsI32(n)) == n
  {
  }

  /**
   * The worker makes the same call: for every accepted input and with one memory, the result of
   * the row is what the synchronous call would have replied, with the timeout that the user gave.
   */
  lemma SameCall(w: World, m: Memory, id: nat, input: Input)
    requires Enqueue(id, input).Ok?
    ensures CallAsyncRow(w, m, Enqueue(id, input).value) == CallResult(id, AsOutcome(w, SyncReply(w, m, input)))
    ensures ConfigOf(Enqueue(id, input).value.options).Ok?
  {
    ConfigInRange(input.options);
    CastsCancel(TimeoutOf(ConfigOf(input.options).value));
  }

  /**
   * For the call that `input` asks for, both processes have the same pool, and both or neither a
   * channel, which is equally usable if the call gets to use it.
   */
  predicate Alike(a: Memory, b: Memory, input: Input)
    requires ConfigOf(input.options).Ok?
  {
    var args := ArgsOf(input, ConfigOf(input.options).value);
    Found(a.registry, ServiceOf(input.path)) == Found(b.registry, ServiceOf(input.path)) && Met(a, args) == Met(b, args)
  }

  lemma AlikeDecides(w: World, a: Memory, b: Memory, input: Input)
    requires ConfigOf(input.options).Ok? && Alike(a, b, input)
    ensures SyncReply(w, a, input) == SyncReply(w, b, input)
  {
  }

  /** A world where whatever has this pool fails in a way of its own. */
  function Telling(pool: Pool): World {
    World(_ => Ok(()), (_, _) => Err(GrpcError.Call), (_, p) => Err(if p == pool then ProtoCompile else GrpcError.Call),
          M.Rules(_ => true, _ => true, _ => ""), (_, _) => Ok(Null), (_, _, _, _) => false,
          e => if e == ProtoCompile then "told" else "", _ => "")
  }

  /** One where nobody can connect any more. */
  function Unreachable(): World {
    World(_ => Err(Connection), (_, _) => Err(GrpcError.Call), (_, _) => Err(GrpcError.Call),
          M.Rules(_ => true, _ => true, _ => ""), (_, _) => Ok(Null), (_, _, _, _) => false,
          e => if e == Connection then "told" else "", _ => "")
  }

  /** And one where everything works but a channel that cannot be used. */
  function Working(): World {
    Willing().(text := e => if e == GrpcError.Call then "" else "told")
  }

  lemma PoolTellsApart(a: Memory, b: Memory, input: Input, pool: Pool)
    requires !SyncRefuses(input)
    requires Found(a.registry, ServiceOf(input.path)) == Some(pool)
    requires Found(b.registry, ServiceOf(input.path)) != Some(pool)
    ensures var w := Telling(pool);
            AsOutcome(w, SyncReply(w, a, input)) != AsOutcome(w, SyncReply(w, b, input))
  {
    var w, args := Telling(pool), ArgsOf(input, ConfigOf(input.options).value);
    assert Perform(w, a, args) == Err(ProtoCompile);
    assert Perform(w, b, args) == Err(GrpcError.Call) || Perform(w, b, args) == Err(Proto);
  }

  lemma ChannelTellsApart(a: Memory, b: Memory, input: Input)
    requires !SyncRefuses(input)
    requires var tls := ConfigOf(input.options).value.tls;
             Cached(a, input.endpoint, tls).Some? && Cached(b, input.endpoint, tls).None?
    ensures var w := Unreachable();
            AsOutcome(w, SyncReply(w, a, input)) != AsOutcome(w, SyncReply(w, b, input))
  {
    var w, args := Unreachable(), ArgsOf(input, ConfigOf(input.options).value);
    assert Perform(w, a, args) == Err(GrpcError.Call) || Perform(w, a, args) == Err(Proto);
    assert Perform(w, b, args) == Err(Connection);
  }

  lemma UseTellsApart(a: Memory, b: Memory, input: Input)
    requires !SyncRefuses(input)
    requires var args := ArgsOf(input, ConfigOf(input.options).value);
             Met(a, args) == Some(true) && Met(b, args) == Some(false)
    requires Found(a.registry, ServiceOf(input.path)) == Found(b.registry, ServiceOf(input.path))
    ensures var w := Working();
            AsOutcome(w, SyncReply(w, a, input)) != AsOutcome(w, SyncReply(w, b, input))
  {
    var w, args := Working(), ArgsOf(input, ConfigOf(input.options).value);
    assert Perform(w, a, args) == Ok(Null) || Perform(w, a, args) == Err(GrpcError.Call);
    assert Perform(w, b, args) == Err(Connection) || Perform(w, b, args) == Err(Proto);
  }

  /** Some world tells two memories apart that differ in their pool, ... */
  lemma PoolsTold(a: Memory, b: Memory, input: Input) returns (w: World)
    requires !SyncRefuses(input)
    requires Found(a.registry, ServiceOf(input.path)) != Found(b.registry, ServiceOf(input.path))
    ensures AsOutcome(w, SyncReply(w, a, input)) != AsOutcome(w, SyncReply(w, b, input))
  {
    var service := ServiceOf(input.path);
    if Found(a.registry, service).Some? {
      w := Telling(Found(a.registry, service).value);
      PoolTellsApart(a, b, input, Found(a.registry, service).value);
    } else {
      w := Telling(Found(b.registry, service).value);
      PoolTellsApart(b, a, input, Found(b.registry, service).value);
    }
  }

  /** ... or otherwise for the call. */
  lemma ToldApart(a: Memory, b: Memory, input: Input) returns (w: World)
    requires !SyncRefuses(input) && !Alike(a, b, input)
    ensures AsOutcome(w, SyncReply(w, a, input)) != AsOutcome(w, SyncReply(w, b, input))
  {
    var args := ArgsOf(input, ConfigOf(input.options).value);
    var ca, cb := Met(a, args), Met(b, args);
    if Found(a.registry, ServiceOf(input.path)) != Found(b.registry, ServiceOf(input.path)) {
      w := PoolsTold(a, b, input);
    } else if ca.Some? != cb.Some? {
      w := Unreachable();
      if ca.Some? {
        ChannelTellsApart(a, b, input);
      } else {
        ChannelTellsApart(b, a, input);
      }
    } else {
      w := Working();
      assert ca != cb && ca.value != cb.value;
      if ca.value {
        UseTellsApart(a, b, input);
      } else {
        UseTellsApart(b, a, input);
      }
    }
  }

  /** In every world the worker records for the row what the synchronous call replies in the backend. */
  ghost predicate AlwaysAgree(backend: Memory, worker: Memory, row: QueueRow, input: Input) {
    forall w: World :: CallAsyncRow(w, worker, row).outcome == AsOutcome(w, SyncReply(w, backend, input))
  }

  /**
   * The maps are one per process, and that is the difference: the two paths agree in every world
   * exactly when the worker's registry answers for the called service as the backend's does, and
   * both or neither have a channel to its endpoint cached.
   */
  lemma {:induction false} AgreeExactlyWhen(backend: Memory, worker: Memory, id: nat, input: Input)
    requires Enqueue(id, input).Ok?
    ensures AlwaysAgree(backend, worker, Enqueue(id, input).value, input) <==> Alike(backend, worker, input)
  {
    var row := Enqueue(id, input).value;
    if Alike(backend, worker, input) {
      forall w: World ensures CallAsyncRow(w, worker, row).outcome == AsOutcome(w, SyncReply(w, backend, input)) {
        SameCall(w, worker, id, input);
        AlikeDecides(w, backend, worker, input);
      }
    } else {
      var w := ToldApart(backend, worker, input);
      SameCall(w, worker, id, input);
      assert CallAsyncRow(w, worker, row).outcome != AsOutcome(w, SyncReply(w, backend, input));
    }
  }

  /**
   * So a proto that a user staged does not help a queued call: no run of the worker ever holds one.
   * With reflection off the call fails, in every world where it has or gets a channel in time,
   * unless some other call has reflected the service.
   */
  lemma StagedProtoUnseen(w: World, steps: seq<W.Step>, channels: map<C.Key, bool>, id: nat, input: Input)
    requires Enqueue(id, input).Ok? && W.Run(W.EMPTY, steps)
    requires var cfg := ConfigOf(input.options).value;
             var m := Memory(map[], channels);
             var args := ArgsOf(input, cfg);
             && !ReflectionOf(cfg)
             && (Met(m, args).Some? || w.connect(C.KeyOf(input.endpoint, cfg.tls).value).Ok?)
             && !w.late(args, Met(m, args), None, TimeoutOf(cfg))
    requires !W.InsertedDuring(W.EMPTY, steps, ServiceOf(input.path))
    ensures var m := Memory(W.After(W.EMPTY, steps).registry, channels);
            && CallAsyncRow(w, m, Enqueue(id, input).value).outcome == Error(w.text(Proto))
            && forall name :: name in m.registry ==> !m.registry[name].origin.UserStaged?
  {
    W.NoUserEntries(W.EMPTY, steps);
    W.PresentExactlyWhen(W.EMPTY, steps, ServiceOf(input.path));
    SameCall(w, Memory(W.After(W.EMPTY, steps).registry, channels), id, input);
  }
}
