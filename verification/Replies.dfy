/**
 * What one call returns, error by error, said of the input alone; on either path
 * (src/call.rs:32-97, 102-144, src/lib.rs:172-201).
 */
module Replies {
  import opened Prelude
  import opened Json
  import opened CallAsync
  import opened CallTypes
  import opened MethodPath
  import opened Options
  import opened ProtoRegistry
  import C = ChannelCache
  import M = Metadata
  import Text

  /** The call as its caller asked for it, and what the process that makes it remembers for it. */
  datatype Asked = Asked(
    args: CallArgs,
    timeout: int,
    service: string,
    key: C.Key,
    registered: Option<Pool>,
    cached: Option<bool>)

  /** Without options: reflection on, 30 seconds, no TLS, no limits. */
  function AskedOf(m: Memory, input: Input): Asked
    requires !SyncRefuses(input)
  {
    var cfg := if input.options.Some? then ParseOptions(input.options.value).value
               else OptionsConfig(None, None, None, None, None);
    var service := ParseMethod(input.path).value.0;
    var key := C.Key(Text.Trim(input.endpoint), cfg.tls);
    Asked(
      CallArgs(input.endpoint, input.path, input.request,
               if cfg.useReflection.Some? then cfg.useReflection.value else true,
               input.metadata, cfg.tls, cfg.maxDecode, cfg.maxEncode),
      if cfg.timeoutMs.Some? then cfg.timeoutMs.value else 30000,
      service,
      key,
      if service in m.registry then Some(m.registry[service].pool) else None,
      if key in m.channels then Some(m.channels[key]) else None)
  }

  /** The timeout strikes. It can tell an unusable channel only if the call comes to use it. */
  predicate Late(w: World, a: Asked) {
    var met := if a.cached.Some? && a.registered.None? && !a.args.useReflection then Some(true) else a.cached;
    w.late(a.args, met, a.registered, a.timeout)
  }

  /** There is a channel: a cached one, or one that opens. */
  predicate Connects(w: World, a: Asked) {
    a.cached.Some? || w.connect(a.key).Ok?
  }

  predicate Usable(a: Asked) {
    a.cached != Some(false)
  }

  /** The registered pool, or the one that reflection finds. */
  predicate Serves(w: World, a: Asked, pool: Pool) {
    || a.registered == Some(pool)
    || (a.registered.None? && a.args.useReflection && Usable(a) && w.fetch(a.args, a.service) == Ok(pool))
  }

  /** The server is asked, and answers `v`. */
  ghost predicate Completes(w: World, a: Asked, v: Value) {
    && !Late(w, a)
    && Connects(w, a) && Usable(a)
    && exists pool :: Serves(w, a, pool)
                      && w.prepare(a.args, pool).Ok?
                      && M.Acceptable(a.args.metadata, w.rules)
                      && w.respond(a.args, pool) == Ok(v)
  }

  /** With a pool at hand: the first of the remaining stages that fails, fails with `e`. */
  predicate ExchangeFails(w: World, a: Asked, pool: Pool, e: GrpcError) {
    if w.prepare(a.args, pool).Err? then w.prepare(a.args, pool).error == e
    else if !Usable(a) then e == Connection
    else if !M.Acceptable(a.args.metadata, w.rules) then e == GrpcError.Call
    else w.respond(a.args, pool) == Err(e)
  }

  /** There is no pool, for the reason `e`. */
  predicate PoolFails(w: World, a: Asked, e: GrpcError) {
    && a.registered.None?
    && if a.args.useReflection && Usable(a) then w.fetch(a.args, a.service) == Err(e) else e == Proto
  }

  ghost predicate FailsWith(w: World, a: Asked, e: GrpcError) {
    && !Late(w, a)
    && (|| (a.cached.None? && w.connect(a.key) == Err(e))
        || (Connects(w, a) && PoolFails(w, a, e))
        || (Connects(w, a) && exists pool :: Serves(w, a, pool) && ExchangeFails(w, a, pool, e)))
  }

  lemma KeyIs(input: Input, tls: Option<TlsConfig>)
    requires ValidateEndpoint(input.endpoint).Ok?
    ensures C.KeyOf(input.endpoint, tls) == Ok(C.Key(Text.Trim(input.endpoint), tls))
  {
  }

  lemma AskedIs(m: Memory, input: Input)
    requires !SyncRefuses(input)
    ensures var a, cfg := AskedOf(m, input), ConfigOf(input.options).value;
            && a.args == ArgsOf(input, cfg) && a.timeout == TimeoutOf(cfg)
            && a.service == ServiceOf(input.path) && Found(m.registry, a.service) == a.registered
            && Cached(m, input.endpoint, cfg.tls) == a.cached
  {
    KeyIs(input, ConfigOf(input.options).value.tls);
  }

  lemma WithoutChannel(w: World, m: Memory, input: Input)
    requires !SyncRefuses(input)
    ensures var a := AskedOf(m, input);
            && (Late(w, a) ==> SyncReply(w, m, input) == TimedOut(a.timeout))
            && (!Late(w, a) ==> SyncReply(w, m, input).Returned?)
            && (!Late(w, a) && !Connects(w, a) ==> SyncReply(w, m, input) == Returned(Err(w.connect(a.key).error)))
  {
    AskedIs(m, input);
    KeyIs(input, AskedOf(m, input).args.tls);
  }

  lemma WithoutPool(w: World, m: Memory, input: Input, e: GrpcError)
    requires !SyncRefuses(input)
    requires var a := AskedOf(m, input); !Late(w, a) && Connects(w, a) && PoolFails(w, a, e)
    ensures SyncReply(w, m, input) == Returned(Err(e))
  {
    AskedIs(m, input);
    KeyIs(input, AskedOf(m, input).args.tls);
  }

  lemma WithPool(w: World, m: Memory, input: Input, pool: Pool)
    requires !SyncRefuses(input)
    requires var a := AskedOf(m, input); !Late(w, a) && Connects(w, a) && Serves(w, a, pool)
    ensures var a := AskedOf(m, input);
            && (forall e :: SyncReply(w, m, input) == Returned(Err(e)) <==> ExchangeFails(w, a, pool, e))
            && (forall v :: SyncReply(w, m, input) == Returned(Ok(v)) <==>
                  && w.prepare(a.args, pool).Ok? && Usable(a) && M.Acceptable(a.args.metadata, w.rules)
                  && w.respond(a.args, pool) == Ok(v))
  {
    AskedIs(m, input);
    KeyIs(input, AskedOf(m, input).args.tls);
  }

  lemma OnePool(w: World, a: Asked, x: Pool, y: Pool)
    requires Serves(w, a, x) && Serves(w, a, y)
    ensures x == y
  {
  }

  /** Either some pool serves the call, or there is a reason why none does, and never both. */
  lemma PoolOrReason(w: World, a: Asked) returns (pool: Option<Pool>, reason: GrpcError)
    ensures pool.Some? ==> Serves(w, a, pool.value) && forall e :: !PoolFails(w, a, e)
    ensures pool.None? ==> PoolFails(w, a, reason) && forall p :: !Serves(w, a, p)
    ensures pool.None? ==> forall e :: PoolFails(w, a, e) ==> e == reason
  {
    pool, reason := None, Proto;
    if a.registered.Some? {
      pool := a.registered;
    } else if a.args.useReflection && Usable(a) {
      match w.fetch(a.args, a.service) {
        case Ok(p) => pool := Some(p);
        case Err(e) => reason := e;
      }
    }
  }

  lemma OfPool(w: World, a: Asked, pool: Pool, v: Value, e: GrpcError)
    requires !Late(w, a) && Connects(w, a) && Serves(w, a, pool) && !PoolFails(w, a, e)
    ensures FailsWith(w, a, e) <==> ExchangeFails(w, a, pool, e)
    ensures Completes(w, a, v) <==>
              && w.prepare(a.args, pool).Ok? && Usable(a) && M.Acceptable(a.args.metadata, w.rules)
              && w.respond(a.args, pool) == Ok(v)
  {
    forall p | Serves(w, a, p) {
      OnePool(w, a, p, pool);
    }
  }

  lemma OfReason(w: World, a: Asked, reason: GrpcError, v: Value, e: GrpcError)
    requires !Late(w, a) && Connects(w, a) && (forall p :: !Serves(w, a, p))
    requires PoolFails(w, a, reason) && (PoolFails(w, a, e) ==> e == reason)
    ensures (FailsWith(w, a, e) <==> e == reason) && !Completes(w, a, v)
  {
  }

  /** The synchronous call: exactly when it returns what the server answered, fails with what, or times out. */
  lemma SyncReplies(w: World, m: Memory, input: Input, v: Value, e: GrpcError, ms: int)
    requires !SyncRefuses(input)
    ensures var a := AskedOf(m, input);
            && (SyncReply(w, m, input) == Returned(Ok(v)) <==> Completes(w, a, v))
            && (SyncReply(w, m, input) == Returned(Err(e)) <==> FailsWith(w, a, e))
            && (SyncReply(w, m, input) == TimedOut(ms) <==> Late(w, a) && ms == a.timeout)
  {
    var a := AskedOf(m, input);
    WithoutChannel(w, m, input);
    if !Late(w, a) && Connects(w, a) {
      var pool, reason := PoolOrReason(w, a);
      if pool.Some? {
        WithPool(w, m, input, pool.value);
        OfPool(w, a, pool.value, v, e);
      } else {
        WithoutPool(w, m, input, reason);
        OfReason(w, a, reason, v, e);
      }
    }
  }

  /** And what it replies when it refuses: options first, then, unless it is late, path and endpoint. */
  lemma SyncRefusals(w: World, m: Memory, input: Input)
    requires SyncRefuses(input)
    ensures var reply := SyncReply(w, m, input);
            if input.options.Some? && !Acceptable(input.options.value) then reply == Returned(Err(Connection))
            else reply.TimedOut? || reply == Returned(Err(if ParseMethod(input.path).Err? then Proto else Connection))
  {
    ParseMethodAccepts(input.path);
  }

  /** The worker, for an accepted row: the same, as the outcome that it records. */
  lemma RowReplies(w: World, m: Memory, id: nat, input: Input, v: Value)
    requires Enqueue(id, input).Ok?
    ensures var a, outcome := AskedOf(m, input), CallAsyncRow(w, m, Enqueue(id, input).value).outcome;
            && (outcome == Success(v) <==> Completes(w, a, v))
            && (Late(w, a) ==> outcome == Error(w.lateText(a.timeout)))
            && (forall e :: FailsWith(w, a, e) ==> outcome == Error(w.text(e)))
  {
    SameCall(w, m, id, input);
    forall e: GrpcError {
      SyncReplies(w, m, input, v, e, AskedOf(m, input).timeout);
    }
    SyncReplies(w, m, input, v, Proto, AskedOf(m, input).timeout);
  }
}
