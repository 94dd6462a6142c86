/** The data that travels through the asynchronous queue (src/queue.rs:4-33). */
module CallTypes {
  import opened Prelude
  import opened Json

  datatype QueueRow = QueueRow(
    id: nat,
    endpoint: string,
    path: string,
    request: Value,
    metadata: Option<Value>,
    options: Option<Value>,
    timeoutMs: int)

  datatype Outcome = Success(response: Value) | Error(message: string)

  datatype CallResult = CallResult(id: nat, outcome: Outcome)

  datatype LookupStatus = Pending | Succeeded(response: Value) | Failed(message: string)

  const NOT_FOUND := "not found — result may have expired"
  const PANICKED := "task panicked"
}
