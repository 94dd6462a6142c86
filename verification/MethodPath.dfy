/** `parse_method` of src/call.rs and `validate_endpoint` of src/endpoint.rs. */
module MethodPath {
  import opened Prelude
  import opened Text

  function ParseMethod(path: string): Result<(string, string), GrpcError> {
    match RSplitOnce(path, '/')
    case None => Err(Proto)
    case Some((before, after)) =>
      var service := Trim(before);
      var name := Trim(after);
      if service == "" || name == "" || '/' in service then Err(Proto)
      else Ok((service, name))
  }

  /** The text that the parser reads back: `Service/Method`. */
  function PrintMethod(service: string, name: string): string {
    service + "/" + name
  }

  /** `path` has exactly one slash, at `i`, and something other than blanks on either side of it. */
  predicate SplitsAt(path: string, i: nat) {
    && i < |path|
    && path[i] == '/'
    && NoSlash(path[..i]) && NoSlash(path[i + 1..])
    && !AllWhite(path[..i]) && !AllWhite(path[i + 1..])
  }

  lemma ParseMethodAt(path: string, i: nat)
    requires SplitsAt(path, i)
    ensures ParseMethod(path) == Ok((Trim(path[..i]), Trim(path[i + 1..])))
  {
    LastIndexIs(path, '/', i);
    TrimBlank(path[..i]);
    TrimBlank(path[i + 1..]);
    TrimKeepsSlashes(path[..i]);
  }

  /** Accepted, for every string, exactly when there is one slash with text on both sides. */
  lemma ParseMethodAccepts(path: string)
    ensures ParseMethod(path).Ok? <==> exists i: nat :: SplitsAt(path, i)
    ensures ParseMethod(path).Err? ==> ParseMethod(path).error == Proto
  {
    if ParseMethod(path).Ok? {
      LastIndexFinds(path, '/');
      var i := LastIndex(path, '/').value;
      assert '/' !in path[i + 1..];
      TrimBlank(path[..i]);
      TrimBlank(path[i + 1..]);
      TrimKeepsSlashes(path[..i]);
      assert SplitsAt(path, i);
    }
    if i: nat :| SplitsAt(path, i) {
      ParseMethodAt(path, i);
    }
  }

  /** Any trimmed, non-empty, slash-free pair can be printed and parsed back. */
  lemma PrintThenParse(service: string, name: string)
    requires service != "" && Trimmed(service) && NoSlash(service)
    requires name != "" && Trimmed(name) && NoSlash(name)
    ensures ParseMethod(PrintMethod(service, name)) == Ok((service, name))
  {
    var path := PrintMethod(service, name);
    assert path[..|service|] == service && path[|service| + 1..] == name;
    assert SplitsAt(path, |service|);
    ParseMethodAt(path, |service|);
    TrimOfTrimmed(service);
    TrimOfTrimmed(name);
  }

  /** A parsed pair is always such a pair, so parsing what was printed gives it again. */
  lemma ParseThenPrint(path: string)
    requires ParseMethod(path).Ok?
    ensures var (service, name) := ParseMethod(path).value;
            && service != "" && Trimmed(service) && NoSlash(service)
            && name != "" && Trimmed(name) && NoSlash(name)
            && ParseMethod(PrintMethod(service, name)) == Ok((service, name))
  {
    ParseMethodAccepts(path);
    var i: nat :| SplitsAt(path, i);
    ParseMethodAt(path, i);
    var _, _ := TrimSplits(path[..i]);
    var _, _ := TrimSplits(path[i + 1..]);
    TrimKeepsSlashes(path[..i]);
    TrimKeepsSlashes(path[i + 1..]);
    PrintThenParse(Trim(path[..i]), Trim(path[i + 1..]));
  }

  function ValidateEndpoint(endpoint: string): Result<string, GrpcError> {
    var trimmed := Trim(endpoint);
    if trimmed == "" then Err(Connection)
    else if Contains(trimmed, "://") then Err(Connection)
    else if '/' in trimmed then Err(Connection)
    else Ok(trimmed)
  }

  /**
   * Accepted exactly when there is text and no slash in it; the scheme check only changes the
   * message. The host that comes out is trimmed, and validating it again changes nothing.
   */
  lemma ValidateEndpointAccepts(endpoint: string)
    ensures ValidateEndpoint(endpoint).Ok? <==> !AllWhite(endpoint) && NoSlash(endpoint)
    ensures ValidateEndpoint(endpoint).Err? ==> ValidateEndpoint(endpoint).error == Connection
    ensures ValidateEndpoint(endpoint).Ok? ==>
              var host := ValidateEndpoint(endpoint).value;
              && host == Trim(endpoint) && host != "" && Trimmed(host) && NoSlash(host)
              && ValidateEndpoint(host) == Ok(host)
  {
    var trimmed := Trim(endpoint);
    TrimBlank(endpoint);
    TrimKeepsSlashes(endpoint);
    var _, _ := TrimSplits(endpoint);
    TrimOfTrimmed(trimmed);
    if Contains(trimmed, "://") {
      var i :| 0 <= i <= |trimmed| && "://" <= trimmed[i..];
      assert trimmed[i + 1] == trimmed[i..][1] == '/';
    }
  }
}
