/** src/options.rs and the shape of src/tls.rs: the per-call `options` blob. */
module Options {
  import opened Prelude
  import opened Json
  import Text

  datatype TlsConfig = TlsConfig(
    caCert: Option<string>,
    clientCert: Option<string>,
    clientKey: Option<string>,
    domainName: Option<string>)

  datatype OptionsConfig = OptionsConfig(
    timeoutMs: Option<int>,
    useReflection: Option<bool>,
    tls: Option<TlsConfig>,
    maxDecode: Option<int>,
    maxEncode: Option<int>)

  const DEFAULT := OptionsConfig(None, None, None, None, None)

  const TLS_FIELDS := {"ca_cert", "client_cert", "client_key", "domain_name"}

  const ACCEPTED_KEYS := {
    "timeout_ms", "use_reflection", "tls",
    "max_decode_message_size_bytes", "max_encode_message_size_bytes"
  }

  // ----- The field parsers -----

  function ParseStringField(fields: seq<(string, Value)>, key: string): Result<Option<string>, GrpcError> {
    match Get(fields, key)
    case None => Ok(None)
    case Some(Null) => Ok(None)
    case Some(Str(s)) => if Text.Trim(s) == "" then Err(Connection) else Ok(Some(s))
    case Some(_) => Err(Connection)
  }

  function ParseTls(value: Value): Result<TlsConfig, GrpcError> {
    if !value.Obj? || exists f :: f in value.fields && f.0 !in TLS_FIELDS then Err(Connection)
    else
      var ca := ParseStringField(value.fields, "ca_cert");
      var cert := ParseStringField(value.fields, "client_cert");
      var key := ParseStringField(value.fields, "client_key");
      var domain := ParseStringField(value.fields, "domain_name");
      if ca.Err? || cert.Err? || key.Err? || domain.Err? then Err(Connection)
      else if cert.value.Some? != key.value.Some? then Err(Connection)
      else Ok(TlsConfig(ca.value, cert.value, key.value, domain.value))
  }

  function ParseSizeU32(value: Value): Result<int, GrpcError> {
    match AsI64(value)
    case None => Err(Connection)
    case Some(n) => if n < 1 then Err(Connection) else if n > U32_MAX then Err(Connection) else Ok(n)
  }

  function ParseBool(value: Value): Result<bool, GrpcError> {
    if value.Bool? then Ok(value.b) else Err(Connection)
  }

  function ParsePositiveU64(value: Value): Result<int, GrpcError> {
    match AsI64(value)
    case None => Err(Connection)
    case Some(n) => if n < 1 then Err(Connection) else Ok(n)
  }

  function ParseTlsOption(value: Value): Result<Option<TlsConfig>, GrpcError> {
    match value
    case Null => Ok(None)
    case Obj(_) => (match ParseTls(value) case Ok(t) => Ok(Some(t)) case Err(e) => Err(e))
    case _ => Err(Connection)
  }

  // ----- What an options blob means -----

  predicate IntegerIn(value: Value, low: int, high: int) {
    value.Num? && value.number.Integer? && low <= value.number.n <= high
  }

  /** The value given for one key is well formed. */
  predicate FieldOk(key: string, value: Value) {
    match key
    case "timeout_ms" => IntegerIn(value, 1, I64_MAX)
    case "use_reflection" => value.Bool?
    case "tls" => value.Null? || (value.Obj? && ParseTls(value).Ok?)
    case "max_decode_message_size_bytes" => IntegerIn(value, 1, U32_MAX)
    case "max_encode_message_size_bytes" => IntegerIn(value, 1, U32_MAX)
    case _ => false
  }

  predicate Present(value: Value, key: string) {
    value.Obj? && Get(value.fields, key).Some?
  }

  /** Absent as a whole, or an object of known keys, each with a well-formed value. */
  predicate Acceptable(value: Value) {
    || value.Null?
    || (&& value.Obj?
        && (forall f :: f in value.fields ==> f.0 in ACCEPTED_KEYS)
        && forall key :: key in ACCEPTED_KEYS && Present(value, key) ==>
                           FieldOk(key, Get(value.fields, key).value))
  }

  function FieldOf(value: Value, key: string): Value
    requires Present(value, key)
  {
    Get(value.fields, key).value
  }

  function IntegerField(value: Value, key: string): Option<int> {
    if Present(value, key) && FieldOf(value, key).Num? && FieldOf(value, key).number.Integer?
    then Some(FieldOf(value, key).number.n) else None
  }

  function Meaning(value: Value): OptionsConfig
    requires Acceptable(value)
  {
    OptionsConfig(
      IntegerField(value, "timeout_ms"),
      if Present(value, "use_reflection") then Some(FieldOf(value, "use_reflection").b) else None,
      if Present(value, "tls") && FieldOf(value, "tls").Obj? then Some(ParseTls(FieldOf(value, "tls")).value) else None,
      IntegerField(value, "max_decode_message_size_bytes"),
      IntegerField(value, "max_encode_message_size_bytes"))
  }

  function ParseOptions(value: Value): Result<OptionsConfig, GrpcError> {
    if Acceptable(value) then Ok(Meaning(value)) else Err(Connection)
  }

  /** `OptionsConfig::parse`: the key check, then the five fields in order, each able to fail. */
  method Parse(value: Value) returns (r: Result<OptionsConfig, GrpcError>)
    ensures r == ParseOptions(value)
  {
    if value.Null? {
      return Ok(DEFAULT);
    }
    if !value.Obj? {
      return Err(Connection);
    }
    var fields := value.fields;
    for i := 0 to |fields|
      invariant forall f :: f in fields[..i] ==> f.0 in ACCEPTED_KEYS
    {
      if fields[i].0 !in ACCEPTED_KEYS {
        assert fields[i] in fields;
        return Err(Connection);
      }
      assert fields[..i + 1] == fields[..i] + [fields[i]];
    }
    assert fields[..|fields|] == fields;

    var cfg := DEFAULT;
    var timeout := Get(fields, "timeout_ms");
    if timeout.Some? {
      var n := ParsePositiveU64(timeout.value);
      assert n.Ok? <==> FieldOk("timeout_ms", timeout.value);
      if n.Err? { return Err(n.error); }
      cfg := cfg.(timeoutMs := Some(n.value));
    }
    var reflection := Get(fields, "use_reflection");
    if reflection.Some? {
      var b := ParseBool(reflection.value);
      assert b.Ok? <==> FieldOk("use_reflection", reflection.value);
      if b.Err? { return Err(b.error); }
      cfg := cfg.(useReflection := Some(b.value));
    }
    var tls := Get(fields, "tls");
    if tls.Some? {
      var t := ParseTlsOption(tls.value);
      assert t.Ok? <==> FieldOk("tls", tls.value);
      if t.Err? { return Err(t.error); }
      cfg := cfg.(tls := t.value);
    }
    var decode := Get(fields, "max_decode_message_size_bytes");
    if decode.Some? {
      var n := ParseSizeU32(decode.value);
      assert n.Ok? <==> FieldOk("max_decode_message_size_bytes", decode.value);
      if n.Err? { return Err(n.error); }
      cfg := cfg.(maxDecode := Some(n.value));
    }
    var encode := Get(fields, "max_encode_message_size_bytes");
    if encode.Some? {
      var n := ParseSizeU32(encode.value);
      assert n.Ok? <==> FieldOk("max_encode_message_size_bytes", encode.value);
      if n.Err? { return Err(n.error); }
      cfg := cfg.(maxEncode := Some(n.value));
    }
    return Ok(cfg);
  }

  // ----- What is accepted, and what it yields -----

  /** An integer between 1 and `max`, or nothing. */
  predicate ReadsInteger(fields: seq<(string, Value)>, key: string, max: int, o: Option<int>) {
    match Get(fields, key)
    case None => o == None
    case Some(Num(Integer(n))) => 1 <= n <= max && o == Some(n)
    case Some(_) => false
  }

  predicate ReadsBool(fields: seq<(string, Value)>, key: string, o: Option<bool>) {
    match Get(fields, key)
    case None => o == None
    case Some(Bool(b)) => o == Some(b)
    case Some(_) => false
  }

  /** A text that is not blank, or nothing, or null. */
  predicate ReadsText(fields: seq<(string, Value)>, key: string, o: Option<string>) {
    match Get(fields, key)
    case None => o == None
    case Some(Null) => o == None
    case Some(Str(text)) => !Text.AllWhite(text) && o == Some(text)
    case Some(_) => false
  }

  /** The four fields of a TLS object; certificate and key come together. */
  predicate ReadsTls(value: Value, tls: TlsConfig) {
    && value.Obj?
    && (forall f :: f in value.fields ==> f.0 in {"ca_cert", "client_cert", "client_key", "domain_name"})
    && ReadsText(value.fields, "ca_cert", tls.caCert)
    && ReadsText(value.fields, "client_cert", tls.clientCert)
    && ReadsText(value.fields, "client_key", tls.clientKey)
    && ReadsText(value.fields, "domain_name", tls.domainName)
    && (tls.clientCert.Some? <==> tls.clientKey.Some?)
  }

  predicate ReadsTlsOption(fields: seq<(string, Value)>, o: Option<TlsConfig>) {
    match Get(fields, "tls")
    case None => o == None
    case Some(Null) => o == None
    case Some(value) => o.Some? && ReadsTls(value, o.value)
  }

  /** The configuration that an options value stands for, key by key. */
  predicate Reads(value: Value, cfg: OptionsConfig) {
    match value
    case Null => cfg == OptionsConfig(None, None, None, None, None)
    case Obj(fields) =>
      && (forall f :: f in fields ==>
            f.0 in {"timeout_ms", "use_reflection", "tls",
                    "max_decode_message_size_bytes", "max_encode_message_size_bytes"})
      && ReadsInteger(fields, "timeout_ms", 9223372036854775807, cfg.timeoutMs)
      && ReadsBool(fields, "use_reflection", cfg.useReflection)
      && ReadsTlsOption(fields, cfg.tls)
      && ReadsInteger(fields, "max_decode_message_size_bytes", 4294967295, cfg.maxDecode)
      && ReadsInteger(fields, "max_encode_message_size_bytes", 4294967295, cfg.maxEncode)
    case _ => false
  }

  lemma TextFieldParsed(fields: seq<(string, Value)>, key: string, o: Option<string>)
    ensures ParseStringField(fields, key) == Ok(o) <==> ReadsText(fields, key, o)
  {
    if Get(fields, key).Some? && Get(fields, key).value.Str? {
      Text.TrimBlank(Get(fields, key).value.s);
    }
  }

  lemma TlsParsed(value: Value, tls: TlsConfig)
    ensures ParseTls(value) == Ok(tls) <==> ReadsTls(value, tls)
  {
    if value.Obj? {
      TextFieldParsed(value.fields, "ca_cert", tls.caCert);
      TextFieldParsed(value.fields, "client_cert", tls.clientCert);
      TextFieldParsed(value.fields, "client_key", tls.clientKey);
      TextFieldParsed(value.fields, "domain_name", tls.domainName);
    }
  }

  /** A value of a key is well formed exactly when it reads as something, and then as its field of `Meaning`. */
  lemma FieldsRead(value: Value, cfg: OptionsConfig)
    requires value.Obj? && Acceptable(value)
    ensures var fields, meaning := value.fields, Meaning(value);
            && (ReadsInteger(fields, "timeout_ms", 9223372036854775807, cfg.timeoutMs)
                <==> cfg.timeoutMs == meaning.timeoutMs)
            && (ReadsBool(fields, "use_reflection", cfg.useReflection) <==> cfg.useReflection == meaning.useReflection)
            && (ReadsInteger(fields, "max_decode_message_size_bytes", 4294967295, cfg.maxDecode)
                <==> cfg.maxDecode == meaning.maxDecode)
            && (ReadsInteger(fields, "max_encode_message_size_bytes", 4294967295, cfg.maxEncode)
                <==> cfg.maxEncode == meaning.maxEncode)
  {
    forall key | key in ACCEPTED_KEYS && Present(value, key) ensures FieldOk(key, FieldOf(value, key)) {
    }
    assert Present(value, "timeout_ms") ==> FieldOk("timeout_ms", FieldOf(value, "timeout_ms"));
    assert Present(value, "use_reflection") ==> FieldOk("use_reflection", FieldOf(value, "use_reflection"));
    assert Present(value, "max_decode_message_size_bytes") ==>
        FieldOk("max_decode_message_size_bytes", FieldOf(value, "max_decode_message_size_bytes"));
    assert Present(value, "max_encode_message_size_bytes") ==>
        FieldOk("max_encode_message_size_bytes", FieldOf(value, "max_encode_message_size_bytes"));
  }

  lemma TlsRead(value: Value, o: Option<TlsConfig>)
    requires value.Obj? && Acceptable(value)
    ensures ReadsTlsOption(value.fields, o) <==> o == Meaning(value).tls
  {
    assert Present(value, "tls") ==> FieldOk("tls", FieldOf(value, "tls"));
    if Present(value, "tls") && FieldOf(value, "tls").Obj? {
      TlsParsed(FieldOf(value, "tls"), ParseTls(FieldOf(value, "tls")).value);
      if o.Some? {
        TlsParsed(FieldOf(value, "tls"), o.value);
      }
    }
  }

  /** What reads as something is acceptable. */
  lemma ReadsAcceptable(value: Value, cfg: OptionsConfig)
    requires Reads(value, cfg)
    ensures Acceptable(value)
  {
    if value.Obj? && Present(value, "tls") && FieldOf(value, "tls").Obj? {
      TlsParsed(FieldOf(value, "tls"), cfg.tls.value);
    }
  }

  /** For every value and every configuration: the parser yields it exactly when the value stands for it. */
  lemma ParsesExactly(value: Value, cfg: OptionsConfig)
    ensures ParseOptions(value) == Ok(cfg) <==> Reads(value, cfg)
    ensures ParseOptions(value).Err? ==> ParseOptions(value).error == Connection
  {
    if Acceptable(value) {
      if value.Obj? {
        FieldsRead(value, cfg);
        TlsRead(value, cfg.tls);
      }
    } else if Reads(value, cfg) {
      ReadsAcceptable(value, cfg);
    }
  }

  /** Whatever was accepted is in range, so no later cast of it can lose anything. */
  lemma ParsedInRange(value: Value)
    requires ParseOptions(value).Ok?
    ensures var cfg := ParseOptions(value).value;
            && (cfg.timeoutMs.Some? ==> 1 <= cfg.timeoutMs.value <= I64_MAX)
            && (cfg.maxDecode.Some? ==> 1 <= cfg.maxDecode.value <= U32_MAX)
            && (cfg.maxEncode.Some? ==> 1 <= cfg.maxEncode.value <= U32_MAX)
  {
    assert Present(value, "timeout_ms") ==> FieldOk("timeout_ms", FieldOf(value, "timeout_ms"));
    assert Present(value, "max_decode_message_size_bytes") ==>
        FieldOk("max_decode_message_size_bytes", FieldOf(value, "max_decode_message_size_bytes"));
    assert Present(value, "max_encode_message_size_bytes") ==>
        FieldOk("max_encode_message_size_bytes", FieldOf(value, "max_encode_message_size_bytes"));
  }
}
